/** The item operations of the storage engine, one step under its lock each. File
    reads, writes and removals may fail; a failed one leaves its file as it was. */
module Storage {
  import opened Values
  import opened Evaluation
  import opened Updates
  import opened Effects
  import opened Records
  import opened StreamLog
  import opened Engine
  import opened Actions

  /** No entry of the update writes a key attribute. The engine does not reject such
      updates, but files the result under the old key. */
  predicate KeepsKeys(schema: Schema, updates: Updates) {
    forall k :: k in updates ==> !IsKeyAttr(schema, Target(k, updates[k]))
  }

  lemma {:induction false} UntouchedAttr(lib: Lib, item: Item, updates: Updates, order: seq<string>, a: string)
    requires forall k :: k in order ==> k in updates && Target(k, updates[k]) != a
    requires ImagesIn(lib, item, updates, order).Some?
    ensures Lookup(ImagesIn(lib, item, updates, order).value.after, a) == Lookup(item, a)
  {
    hide EffectOf;
    if order != [] {
      UntouchedAttr(lib, item, updates, order[..|order| - 1], a);
    }
  }

  lemma UpdateKeepsKey(h: Hash, lib: Lib, schema: Schema, item: Item, updates: Updates, order: seq<string>)
    requires KeepsKeys(schema, updates) && forall k :: k in order ==> k in updates
    requires ImagesIn(lib, item, updates, order).Some?
    ensures KeyOf(h, schema, ImagesIn(lib, item, updates, order).value.after) == KeyOf(h, schema, item)
  {
    hide ImagesIn;
    var after := ImagesIn(lib, item, updates, order).value.after;
    forall a | IsKeyAttr(schema, a)
      ensures Lookup(after, a) == Lookup(item, a)
    {
      UntouchedAttr(lib, item, updates, order, a);
    }
    SameKey(h, schema, after, item);
  }

  /** Applies the entries in whatever order the map yields them. */
  method ApplyUpdates(lib: Lib, item: Item, updates: Updates) returns (im: Option<Images>, ghost order: seq<string>)
    ensures NoDuplicates(order) && forall k :: k in order ==> k in updates
    ensures im == ImagesIn(lib, item, updates, order)
    ensures im.Some? ==> IterationOf(order, updates)
  {
    hide EffectOf;
    var rest := updates.Keys;
    var now := Images(item, item, item.Keys);
    order := [];
    while rest != {}
      invariant rest <= updates.Keys
      invariant NoDuplicates(order) && forall k :: k in order <==> k in updates && k !in rest
      invariant Some(now) == ImagesIn(lib, item, updates, order)
      decreases rest
    {
      var k :| k in rest;
      var e, target := EffectOf(lib, now.after, k, updates[k]), Target(k, updates[k]);
      assert (order + [k])[..|order|] == order;
      order := order + [k];
      if e.Rejected? {
        return None, order;
      }
      if Nested(updates[k]) {
        now := now.(shown := if target in now.shared then Write(now.shown, target, e) else now.shown);
      } else {
        now := now.(shared := now.shared - {target});
      }
      now := now.(after := Write(now.after, target, e));
      rest := rest - {k};
    }
    im := Some(now);
  }

  class Storage {
    const h: Hash
    const lib: Lib
    const streams: Streams
    var metas: map<string, Meta>
    var tables: map<string, Table>
    ghost var books: map<string, Book>
    ghost var astray: set<string>
    ghost var faults: nat

    ghost function W(): World
      reads this, streams
    {
      Holding(tables)
    }

    /** The stream buffers are those of the tables with streaming enabled. */
    ghost predicate Buffered()
      reads this, streams
    {
      forall t :: t in streams.bufs <==> t in metas && metas[t].stream.Some?
    }

    ghost predicate Valid()
      reads this, streams
    {
      streams.Valid() && WorldOk(h, W()) && Buffered()
    }

    constructor (h: Hash, lib: Lib, now: int)
      ensures Valid() && fresh(streams) && metas == map[] && streams.clock == now
      ensures this.h == h && this.lib == lib
    {
      this.h, this.lib := h, lib;
      streams := new Streams(now);
      metas, tables, books, astray, faults := map[], map[], map[], {}, 0;
    }

    /** Any file operation; `faults` counts those that fail. */
    method Attempt() returns (ok: bool)
      modifies this`faults
      ensures faults == old(faults) + if ok then 0 else 1
    {
      ok := *;
      if !ok {
        faults := faults + 1;
      }
    }

    /** `readJSON` of an item file. */
    method Read(t: string, k: Key) returns (ok: bool, item: Option<Item>)
      requires t in tables
      modifies this`faults
      ensures ok ==> item == At(tables[t], k)
      ensures faults == old(faults) + if ok then 0 else 1
    {
      item := At(tables[t], k);
      ok := Attempt();
    }

    /** `writeJSON` or `removeFile` of an item file. */
    method Write(t: string, k: Key, item: Option<Item>) returns (ok: bool)
      requires t in tables
      modifies this`tables, this`faults
      ensures tables == if ok then old(tables)[t := Put(old(tables[t]), k, item)] else old(tables)
      ensures faults == old(faults) + if ok then 0 else 1
    {
      ok := Attempt();
      if ok {
        tables := tables[t := Put(tables[t], k, item)];
      }
    }

    /** The world with other contents in the tables. */
    ghost function Holding(ts: Tables): World
      reads this, streams
    {
      World(metas, ts, books, streams.emitted, streams.bufs, streams.unsynced, streams.behind, astray)
    }

    /** All changes that lead to the contents ts are reported, and c comes next. */
    ghost predicate Pending(ts: Tables, t: string, c: Change, now: int)
      reads this, streams
    {
      && streams.Valid() && Buffered() && streams.clock <= now
      && WorldOk(h, Holding(ts)) && t in metas && t in ts && c.before == At(ts[t], c.key)
      && (c.before.Some? || c.after.Some?)
    }

    /** With the contents ts, the world has gone through change c of table t. */
    twostate predicate Reported(ts: Tables, t: string, c: Change)
      requires t in ts && t in old(metas)
      reads this, streams
    {
      exists r, appended ::
        && RecordOf(h, old(Holding(ts)), t, c, r)
        && Holding(ts[t := Put(ts[t], c.key, c.after)]) == Changed(h, old(Holding(ts)), t, c, r, appended)
    }

    /** Reports a stored change, if the table streams. */
    method Report(t: string, c: Change, now: int, ghost ts: Tables)
      requires Pending(ts, t, c, now)
      modifies this`books, this`astray, streams
      ensures streams.Valid() && Buffered() && streams.clock == now && Reported(ts, t, c)
      ensures WorldOk(h, Holding(ts[t := Put(ts[t], c.key, c.after)]))
      ensures AllContinue(old(Holding(ts)), Holding(ts[t := Put(ts[t], c.key, c.after)]), if Exact(c) then {} else {t})
      ensures books == Noted(metas, old(books), t, c) && astray == Strayed(h, metas, old(astray), t, c)
    {
      hide StateOk, WorldOk, Reports, KeyOf, AllContinue, RecordOf, RecordFor, EventOf, KeySource, KeysOf, ExtractKeys, Fits;
      ghost var w := Holding(ts);
      ghost var r := RecordFor(REMOVE, KeysOnly, map[], None, None, 0, 0);
      ghost var appended := false;
      if metas[t].stream.None? {
        NoRecord(h, w, t, c, r);
        ClockKeeps(streams.St(), now);
        streams.clock := now;
      } else {
        var view, keys := metas[t].stream.value, ExtractKeys(metas[t].schema, KeySource(c));
        assert t in streams.bufs;
        WorldTracked(h, w, t);
        RecordReports(h, w, t, c, view, streams.seqNum + 1, now);
        r := RecordFor(EventOf(c), view, keys, c.shown, c.after, streams.seqNum + 1, now);
        appended := streams.Emit(t, EventOf(c), view, keys, c.shown, c.after, now);
      }
      books := Noted(metas, books, t, c);
      astray := Strayed(h, metas, astray, t, c);
      assert Holding(ts[t := Put(ts[t], c.key, c.after)]) == Changed(h, w, t, c, r, appended);
      ChangeKeeps(h, w, t, c, r, appended);
      ChangedContinues(h, w, t, c, r, appended);
    }

    /** Nothing has happened but the passing of time. */
    twostate predicate Untouched()
      reads this, streams
    {
      W() == old(W())
    }

    /** Table t has gone through change c, and its stream, if on, has one more record,
        which reports it. */
    twostate predicate Committed(t: string, c: Change)
      reads this, streams
    {
      && t in old(metas) && t in old(tables) && c.before == At(old(tables[t]), c.key)
      && exists r, appended :: RecordOf(h, old(W()), t, c, r) && W() == Changed(h, old(W()), t, c, r, appended)
    }

    /** Streams have only been added to, with true previous images but in `loose` tables. */
    twostate predicate Continuing(loose: set<string>)
      reads this, streams
    {
      AllContinue(old(W()), W(), loose)
    }

    /** Stores an item and reports the change, or fails and does nothing. */
    method Commit(t: string, c: Change, now: int) returns (ok: bool)
      requires Valid() && streams.clock <= now
      requires t in metas && t in tables && c.before == At(tables[t], c.key) && (c.before.Some? || c.after.Some?)
      modifies this`tables, this`books, this`astray, this`faults, streams
      ensures Valid() && streams.clock <= now && (ok ==> Committed(t, c)) && (!ok ==> Untouched())
      ensures Continuing(if Exact(c) then {} else {t})
      ensures faults == old(faults) + if ok then 0 else 1
      ensures ok ==>
                && tables == old(tables)[t := Put(old(tables[t]), c.key, c.after)]
                && books == Noted(metas, old(books), t, c) && astray == Strayed(h, metas, old(astray), t, c)
    {
      hide StateOk, WorldOk, Reports, KeyOf, AllContinue, Noted, Strayed, RecordOf, Changed;
      ghost var ts := tables;
      ok := Write(t, c.key, c.after);
      if ok {
        Report(t, c, now, ts);
      } else {
        SameContinues(h, old(W()), W());
        ContinueLooser(old(W()), W(), {t});
      }
    }

    /** The key is incomplete, or the condition cannot be evaluated on the present item. */
    ghost predicate Malformed(t: string, key: Item, cond: Option<Condition>)
      reads this
    {
      && t in metas
      && var k := KeyOf(h, metas[t].schema, key);
         k.None? || (t in tables && Unclear(lib, At(tables[t], k.value), cond))
    }

    /** The item an operation finds under a key. */
    twostate function Before(t: string, key: Item): Option<Item>
      reads this
    {
      if t !in old(metas) || t !in old(tables) then None
      else
        var k := KeyOf(h, old(metas[t]).schema, key);
        if k.None? then None else At(old(tables[t]), k.value)
    }

    /** `PutItem`. */
    method PutItem(t: string, item: Item, cond: Option<Condition>, now: int) returns (r: Reply)
      requires Valid() && streams.clock <= now
      modifies this`tables, this`books, this`astray, this`faults, streams
      ensures Valid() && streams.clock <= now && Continuing({})
      ensures !r.Done? ==> Untouched()
      ensures r.NoTable? <==> t !in metas
      ensures faults >= old(faults) && (r.IOError? <==> faults > old(faults))
      ensures r.NoTable? || r.IOError? || r.BadRequest? || r.CheckFailed? || r.Done?
      ensures r.BadRequest? ==> Malformed(t, item, cond)
      ensures r.Done? || r.CheckFailed? ==> KeyOf(h, metas[t].schema, item).Some?
      ensures r.Done? ==>
                var k := KeyOf(h, metas[t].schema, item).value;
                var old' := At(old(tables[t]), k);
                && Allows(lib, old', cond) && r == Done(old', Some(item))
                && Committed(t, Change(k, old', Some(item), old'))
      ensures r.CheckFailed? ==>
                var old' := At(tables[t], KeyOf(h, metas[t].schema, item).value);
                Denies(lib, old', cond) && r.current == old'
    {
      hide StateOk, WorldOk, KeyOf, Check, Allows, Denies, Reports, AllContinue, Noted, Strayed, RecordOf, Changed;
      WorldDomains(h, W());
      SameContinues(h, W(), W());
      if t !in metas {
        return NoTable;
      }
      var key := KeyOf(h, metas[t].schema, item);
      if key.None? {
        return BadRequest;
      }
      var ok, current := Read(t, key.value);
      if !ok {
        return IOError;
      }
      CheckMeans(lib, current, cond);
      match Check(lib, current, cond) {
        case Invalid => return BadRequest;
        case Fail => return CheckFailed(current);
        case Pass =>
      }
      ok := Commit(t, Change(key.value, current, Some(item), current), now);
      r := if ok then Done(current, Some(item)) else IOError;
    }

    /** `DeleteItem`: removing what is not there changes nothing and reports nothing. */
    method DeleteItem(t: string, key: Item, cond: Option<Condition>, now: int) returns (r: Reply)
      requires Valid() && streams.clock <= now
      modifies this`tables, this`books, this`astray, this`faults, streams
      ensures Valid() && streams.clock <= now && Continuing({})
      ensures r.NoTable? <==> t !in metas
      ensures faults >= old(faults) && (r.IOError? <==> faults > old(faults))
      ensures r.NoTable? || r.IOError? || r.BadRequest? || r.CheckFailed? || r.Done?
      ensures r.BadRequest? ==> Malformed(t, key, cond)
      ensures r.Done? || r.CheckFailed? ==> KeyOf(h, metas[t].schema, key).Some?
      ensures r.Done? ==>
                var k := KeyOf(h, metas[t].schema, key).value;
                var old' := At(old(tables[t]), k);
                && Allows(lib, old', cond) && r == Done(old', None)
                && (old'.Some? ==> Committed(t, Change(k, old', None, old')))
                && (old'.None? ==> Untouched())
      ensures !r.Done? ==> Untouched()
      ensures r.CheckFailed? ==>
                var old' := At(tables[t], KeyOf(h, metas[t].schema, key).value);
                Denies(lib, old', cond) && r.current == old'
    {
      hide StateOk, WorldOk, KeyOf, Check, Allows, Denies, Reports, AllContinue, Noted, Strayed, RecordOf, Changed;
      WorldDomains(h, W());
      SameContinues(h, W(), W());
      if t !in metas {
        return NoTable;
      }
      var k := KeyOf(h, metas[t].schema, key);
      if k.None? {
        return BadRequest;
      }
      var ok, current := Read(t, k.value);
      if !ok {
        return IOError;
      }
      CheckMeans(lib, current, cond);
      match Check(lib, current, cond) {
        case Invalid => return BadRequest;
        case Fail => return CheckFailed(current);
        case Pass =>
      }
      if current.None? {
        return Done(None, None);
      }
      ok := Commit(t, Change(k.value, current, None, current), now);
      r := if ok then Done(current, None) else IOError;
    }

    /** `UpdateItem`: an absent item is seeded from the key. The previous image it hands
        on is the shallow copy, through which nested operations show. */
    method UpdateItem(t: string, key: Item, updates: Updates, cond: Option<Condition>, now: int)
      returns (r: Reply, ghost order: seq<string>)
      requires Valid() && streams.clock <= now
      modifies this`tables, this`books, this`astray, this`faults, streams
      ensures Valid() && streams.clock <= now && Continuing(if r.Done? && r.previous != Before(t, key) then {t} else {})
      ensures r.NoTable? <==> t !in metas
      ensures faults >= old(faults) && (r.IOError? <==> faults > old(faults))
      ensures r.NoTable? || r.IOError? || r.BadRequest? || r.CheckFailed? || r.Done?
      ensures r.BadRequest? && !Malformed(t, key, cond) ==>
                && t in tables && (forall k :: k in order ==> k in updates)
                && Updated(lib, At(tables[t], KeyOf(h, metas[t].schema, key).value), key, updates, order).None?
                && (Independent(updates) ==> SomeRefused(lib, Met(At(tables[t], KeyOf(h, metas[t].schema, key).value), key), updates))
      ensures !r.Done? ==> Untouched()
      ensures r.Done? || r.CheckFailed? ==> KeyOf(h, metas[t].schema, key).Some?
      ensures r.Done? ==> IterationOf(order, updates)
      ensures r.Done? ==>
                var k := KeyOf(h, metas[t].schema, key).value;
                var old' := At(old(tables[t]), k);
                var im := Updated(lib, old', key, updates, order);
                && Allows(lib, old', cond) && im.Some?
                && r == Done(Shown(old', im.value), Some(im.value.after))
                && Committed(t, Change(k, old', Some(im.value.after), Shown(old', im.value)))
                && AllEffected(lib, Met(old', key), im.value.after, updates)
      ensures r.CheckFailed? ==>
                var old' := At(tables[t], KeyOf(h, metas[t].schema, key).value);
                Denies(lib, old', cond) && r.current == old'
    {
      hide StateOk, WorldOk, KeyOf, Check, Allows, Denies, ImagesIn, AllEffected, SomeRefused, Independent, Updated, Met, Shown, IterationOf, At, Put, Reports, AllContinue, Noted, Strayed, RecordOf, Changed;
      WorldDomains(h, W());
      SameContinues(h, W(), W());
      order := [];
      if t !in metas {
        r := NoTable;
        return;
      }
      var k := KeyOf(h, metas[t].schema, key);
      if k.None? {
        r := BadRequest;
        return;
      }
      var ok, current := Read(t, k.value);
      if !ok {
        r := IOError;
        return;
      }
      CheckMeans(lib, current, cond);
      match Check(lib, current, cond) {
        case Invalid => r := BadRequest; return;
        case Fail => r := CheckFailed(current); return;
        case Pass =>
      }
      r, order := StoreUpdate(t, k.value, key, current, updates, now);
    }

    /** The part of `UpdateItem` after the condition held. */
    method StoreUpdate(t: string, k: Key, key: Item, current: Option<Item>, updates: Updates, now: int)
      returns (r: Reply, ghost order: seq<string>)
      requires Valid() && streams.clock <= now && t in metas && t in tables
      requires KeyOf(h, metas[t].schema, key) == Some(k) && current == At(tables[t], k)
      modifies this`tables, this`books, this`astray, this`faults, streams
      ensures Valid() && streams.clock <= now && Continuing(if r.Done? && r.previous != current then {t} else {})
      ensures r.Done? || ((r.BadRequest? || r.IOError?) && Untouched())
      ensures faults >= old(faults) && (r.IOError? <==> faults > old(faults))
      ensures r.BadRequest? ==>
                && (forall j :: j in order ==> j in updates) && Updated(lib, current, key, updates, order).None?
                && (Independent(updates) ==> SomeRefused(lib, Met(current, key), updates))
      ensures r.Done? ==> IterationOf(order, updates)
      ensures r.Done? ==>
                var im := Updated(lib, current, key, updates, order);
                && im.Some? && r == Done(Shown(current, im.value), Some(im.value.after))
                && Committed(t, Change(k, current, Some(im.value.after), Shown(current, im.value)))
                && AllEffected(lib, Met(current, key), im.value.after, updates)
    {
      hide StateOk, WorldOk, KeyOf, ImagesIn, AllEffected, SomeRefused, Independent, Reports, AllContinue, Noted, Strayed, RecordOf, Changed;
      SameContinues(h, W(), W());
      var item := if current.Some? then current.value else key;
      var im;
      im, order := ApplyUpdates(lib, item, updates);
      if im.None? {
        RefusedFor(lib, Met(current, key), updates, order);
        r := BadRequest;
        return;
      }
      UpdateMeans(lib, Met(current, key), updates, order);
      var shown := if current.Some? then Some(im.value.shown) else None;
      var ok := Commit(t, Change(k, current, Some(im.value.after), shown), now);
      r := if ok then Done(shown, Some(im.value.after)) else IOError;
      if !ok {
        SameContinues(h, old(W()), W());
      }
    }

    // ---- transactions

    /** Phase 0 (`checkDuplicateKeysLocked`). */
    method CheckDuplicates(actions: seq<Action>) returns (r: Option<Reply>)
      modifies this`faults
      ensures faults >= old(faults) && (r == Some(IOError) <==> faults > old(faults))
      ensures r.None? ==> OneEach(h, metas, actions)
      ensures r == Some(NoTable) ==> exists a :: a in actions && !a.NoAct? && a.table !in metas
      ensures r == Some(BadRequest) ==> !OneEach(h, metas, actions)
      ensures r.Some? ==> r.value.NoTable? || r.value.BadRequest? || r.value.IOError?
    {
      hide KeyOf;
      var seen: set<Ref> := {};
      for i := 0 to |actions|
        invariant faults == old(faults) && OneEach(h, metas, actions[..i])
        invariant forall j :: 0 <= j < i && !actions[j].NoAct? ==> RefOf(h, metas, actions[j]).value in seen
        invariant forall ref :: ref in seen ==> exists j :: 0 <= j < i && RefOf(h, metas, actions[j]) == Some(ref)
      {
        var a := actions[i];
        if !a.NoAct? {
          var readable := Attempt();
          if !readable {
            return Some(IOError);
          }
          if a.table !in metas {
            assert a in actions;
            return Some(NoTable);
          }
          var ref := RefOf(h, metas, a);
          if ref.None? {
            return Some(BadRequest);
          }
          if ref.value in seen {
            return Some(BadRequest);
          }
          seen := seen + {ref.value};
        }
      }
      assert actions[..|actions|] == actions;
      r := None;
    }

    /** Phase 1: every condition is looked at, and all that failed are reported. */
    method CheckConditions(actions: seq<Action>) returns (r: Option<Reply>)
      requires OneEach(h, metas, actions) && metas.Keys == tables.Keys
      modifies this`faults
      ensures faults >= old(faults) && (r == Some(IOError) <==> faults > old(faults))
      ensures r.None? ==> AllPass(h, lib, metas, actions, tables)
      ensures r.Some? ==> r.value.BadRequest? || r.value.IOError? || r.value.Canceled?
      ensures r == Some(BadRequest) ==>
                exists a :: a in actions && !a.NoAct? && Unclear(lib, Found(h, metas, tables, a), a.cond)
      ensures r.Some? && r.value.Canceled? ==>
                && !AllPass(h, lib, metas, actions, tables)
                && |r.value.reasons| == |actions|
                && forall i :: 0 <= i < |actions| ==>
                     r.value.reasons[i] == ReasonOf(lib, actions[i], Found(h, metas, tables, actions[i]))
    {
      hide RefOf, Check, Allows, Denies, OneEach;
      var reasons: seq<Reason>, failed := [], false;
      for i := 0 to |actions|
        invariant |reasons| == i && faults == old(faults)
        invariant !failed <==> AllPass(h, lib, metas, actions[..i], tables)
        invariant forall j :: 0 <= j < i ==>
                    reasons[j] == ReasonOf(lib, actions[j], Found(h, metas, tables, actions[j]))
      {
        var a := actions[i];
        assert actions[..i + 1] == actions[..i] + [a] && a in actions;
        if a.NoAct? {
          reasons := reasons + [NoReason];
        } else {
          HasRef(h, metas, actions, i);
          var ref := RefOf(h, metas, a).value;
          Named(h, metas, a);
          var ok, current := Read(ref.table, ref.key);
          if !ok {
            return Some(IOError);
          }
          assert current == Found(h, metas, tables, a);
          CheckMeans(lib, current, a.cond);
          var verdict := Check(lib, current, a.cond);
          if verdict == Invalid {
            return Some(BadRequest);
          }
          failed := failed || verdict == Fail;
          reasons := reasons + [if verdict == Fail then ConditionFailed(if a.showOld then current else None) else NoReason];
        }
      }
      assert actions[..|actions|] == actions;
      r := if failed then Some(Canceled(reasons)) else None;
    }

    /** The new content of the item an action writes; it is read afresh for an update. */
    method NewContent(a: Action, ref: Ref) returns (r: Option<Reply>, item: Option<Item>)
      requires Writes(a) && RefOf(h, metas, a) == Some(ref) && metas.Keys == tables.Keys
      modifies this`faults
      ensures r.Some? ==> r.value.BadRequest? || r.value.IOError?
      ensures faults >= old(faults) && (r == Some(IOError) <==> faults > old(faults))
      ensures r == Some(BadRequest) ==> Rejects(lib, a, ItemAt(tables, ref))
      ensures r.None? ==> Achieves(lib, a, ItemAt(tables, ref), item)
    {
      hide KeyOf, ImagesIn;
      r, item := None, None;
      match a {
        case PutAct(_, new', _, _) => item := Some(new');
        case DeleteAct(_, _, _, _) =>
        case UpdateAct(_, key, updates, _, _) =>
          var ok, current := Read(ref.table, ref.key);
          if !ok {
            return Some(IOError), None;
          }
          var im;
          ghost var order;
          im, order := ApplyUpdates(lib, if current.Some? then current.value else key, updates);
          if im.None? {
            assert Result(lib, current, key, updates, order).None?;
            return Some(BadRequest), None;
          }
          item := Some(im.value.after);
          assert Result(lib, current, key, updates, order) == item;
      }
    }

    /** One action of phase 2: snapshot, then write. */
    method ApplyAction(a: Action, ref: Ref) returns (r: Option<Reply>, x: Applied)
      requires Writes(a) && RefOf(h, metas, a) == Some(ref) && metas.Keys == tables.Keys
      modifies this`tables, this`faults
      ensures r.Some? ==> (r.value.BadRequest? || r.value.IOError?) && tables == old(tables)
      ensures faults >= old(faults) && (r == Some(IOError) <==> faults > old(faults))
      ensures r == Some(BadRequest) ==> Rejects(lib, a, ItemAt(tables, ref))
      ensures r.None? ==>
                && x == Applied(a, ref, ItemAt(old(tables), ref), x.after)
                && tables == PutAt(old(tables), ref, x.after)
                && Achieves(lib, a, x.before, x.after)
    {
      hide Achieves, Rejects;
      Named(h, metas, a);
      hide RefOf;
      x := Applied(a, ref, None, None);
      var ok, before := Read(ref.table, ref.key);
      if !ok {
        return Some(IOError), x;
      }
      var item;
      r, item := NewContent(a, ref);
      if r.Some? {
        return;
      }
      ok := Write(ref.table, ref.key, item);
      if !ok {
        return Some(IOError), x;
      }
      x := Applied(a, ref, before, item);
    }

    /** `rollbackLocked`: the snapshots go back in reverse. A restore that fails in turn
        is passed over; `lost` collects those items. */
    method Rollback(applied: seq<Applied>, ghost start: Tables) returns (lost: set<Ref>)
      requires Placed(start, applied) && Snapped(start, applied) && DistinctRefs(applied) && tables == Written(start, applied)
      modifies this`tables, this`faults
      ensures tables.Keys == start.Keys
      ensures forall ref: Ref :: ref !in lost ==> ItemAt(tables, ref) == ItemAt(start, ref)
      ensures forall ref: Ref :: ref in lost ==> StillWritten(applied, 0, tables, ref)
      ensures lost == {} ==> tables == start
      ensures |lost| <= faults - old(faults)
    {
      hide Written, Snapped, ItemAt, StillWritten, DistinctRefs;
      lost := {};
      assert applied[..|applied|] == applied;
      var n := |applied|;
      while n > 0
        invariant 0 <= n <= |applied| && Placed(start, applied[..n]) && tables.Keys == start.Keys
        invariant |lost| <= faults - old(faults)
        invariant forall ref: Ref :: ref !in lost ==> ItemAt(tables, ref) == ItemAt(Written(start, applied[..n]), ref)
        invariant forall ref: Ref :: ref in lost ==> StillWritten(applied, n, tables, ref)
      {
        n := n - 1;
        var x := applied[n];
        WrittenLess(start, applied, n);
        LastWritten(start, applied, n);
        ghost var were := tables;
        var ok := Write(x.ref.table, x.ref.key, x.before);
        if ok {
          forall ref: Ref
            ensures ItemAt(tables, ref) == if ref == x.ref then x.before else ItemAt(were, ref)
          {
            PutAtReads(were, x.ref, x.before, ref);
          }
        }
        forall ref: Ref | ref in lost
          ensures ref != x.ref && StillWritten(applied, n, tables, ref)
        {
          StaysLost(applied, n, were, tables, ref);
        }
        if !ok {
          JustLost(applied, n, tables);
          lost := lost + {x.ref};
        }
      }
      NothingWritten(start, applied[..0]);
      if lost == {} {
        SameItems(tables, start);
      }
    }

    /** Phase 2: all actions are applied, or none. */
    method ApplyAll(actions: seq<Action>) returns (r: Option<Reply>, applied: seq<Applied>, lost: set<Ref>)
      requires OneEach(h, metas, actions) && metas.Keys == tables.Keys
      modifies this`tables, this`faults
      ensures r.Some? ==>
                && (r.value.BadRequest? || r.value.IOError?)
                && OnlyLost(h, lib, metas, actions, old(tables), tables, lost)
                && (lost == {} ==> tables == old(tables))
                && |lost| <= faults - old(faults)
                && (r.value.IOError? ==> |lost| < faults - old(faults))
                && (r.value.BadRequest? ==> exists a :: a in actions && Rejects(lib, a, Found(h, metas, old(tables), a)))
      ensures r.None? ==>
                && lost == {} && faults == old(faults) && Progress(h, lib, metas, actions, applied, old(tables))
                && tables == Written(old(tables), applied)
    {
      hide Progress, RefOf, OneEach, Written, Achieves, ItemAt, Rejects, OnlyLost, StillWritten;
      applied, lost := [], {};
      NoProgress(h, lib, metas, tables);
      NothingWritten(tables, []);
      for i := 0 to |actions|
        invariant faults == old(faults) && Progress(h, lib, metas, actions[..i], applied, old(tables))
        invariant Placed(old(tables), applied) && tables == Written(old(tables), applied) && lost == {}
        invariant metas.Keys == tables.Keys
      {
        var a := actions[i];
        assert a in actions && actions[..i + 1] == actions[..i] + [a];
        if Writes(a) {
          HasRef(h, metas, actions, i);
          var ref := RefOf(h, metas, a).value;
          Named(h, metas, a);
          OneEachPrefix(h, metas, actions, i + 1);
          StillInitial(h, lib, metas, actions[..i], applied, old(tables), a, ref);
          var x;
          r, x := ApplyAction(a, ref);
          if r.Some? {
            ProgressSnapped(h, lib, metas, actions[..i], applied, old(tables));
            lost := Rollback(applied, old(tables));
            LostLeft(h, lib, metas, actions[..i], actions, applied, old(tables), tables, lost);
            return;
          }
          ProgressMore(h, lib, metas, actions[..i], applied, old(tables), x);
          applied := applied + [x];
        } else {
          ProgressSame(h, lib, metas, actions[..i], applied, old(tables), a);
        }
      }
      assert actions[..|actions|] == actions;
      r := None;
    }

    /** The new image of an update is read back from the store. */
    method EmitOne(x: Applied, now: int, ghost ts: Tables)
      requires streams.Valid() && Buffered() && streams.clock <= now && WorldOk(h, Holding(ts))
      requires x.ref.table in metas && x.ref.table in ts && Kind(x)
      requires x.before == ItemAt(ts, x.ref) && ItemAt(tables, x.ref) == x.after
      modifies this`books, this`astray, streams
      ensures streams.Valid() && Buffered() && streams.clock <= now && WorldOk(h, Holding(PutAt(ts, x.ref, x.after)))
      ensures AllContinue(old(Holding(ts)), Holding(PutAt(ts, x.ref, x.after)), {})
      ensures books == if IsChange(x) then Noted(metas, old(books), x.ref.table, ChangeOf(x)) else old(books)
      ensures astray == if IsChange(x) then Strayed(h, metas, old(astray), x.ref.table, ChangeOf(x)) else old(astray)
    {
      hide StateOk, WorldOk, Reports, KeyOf, Noted, Strayed, AllContinue, RecordOf, Changed;
      var after := match x.action
        case PutAct(_, item, _, _) => Some(item)
        case UpdateAct(_, _, _, _, _) => ItemAt(tables, x.ref)
        case _ => None;
      if x.before.Some? || after.Some? {
        Report(x.ref.table, Change(x.ref.key, x.before, after, x.before), now, ts);
      } else {
        PutNothing(ts, x.ref);
        SameContinues(h, Holding(ts), Holding(ts));
      }
    }

    /** `emitTransactStreamEvents`: one record for each write that changed something. */
    method EmitAll(applied: seq<Applied>, now: int, ghost actions: seq<Action>, ghost start: Tables)
      requires streams.Valid() && Buffered() && streams.clock <= now && WorldOk(h, Holding(start))
      requires Progress(h, lib, metas, actions, applied, start) && tables == Written(start, applied)
      modifies this`books, this`astray, streams
      ensures Valid() && streams.clock <= now && AllContinue(old(Holding(start)), W(), {})
      ensures forall x :: x in applied ==> x.ref.table in metas
      ensures books == NotedAll(metas, old(books), applied) && astray == StrayedAll(h, metas, old(astray), applied)
    {
      hide StateOk, WorldOk, Reports, Written, Progress, Noted, Strayed, KeyOf, Placed, Kind, PutAt, ItemAt, AllContinue;
      ProgressPlaced(h, lib, metas, actions, applied, start);
      PlacedTables(metas, start, applied);
      NothingWritten(start, applied[..0]);
      SameContinues(h, Holding(start), Holding(start));
      for i := 0 to |applied|
        invariant streams.Valid() && Buffered() && streams.clock <= now
        invariant Placed(start, applied[..i]) && WorldOk(h, Holding(Written(start, applied[..i])))
        invariant AllContinue(old(Holding(start)), Holding(Written(start, applied[..i])), {})
        invariant books == NotedAll(metas, old(books), applied[..i])
        invariant astray == StrayedAll(h, metas, old(astray), applied[..i])
      {
        NextChange(h, lib, metas, actions, applied, start, i);
        assert applied[..i + 1][..i] == applied[..i];
        ghost var w := Holding(Written(start, applied[..i]));
        EmitOne(applied[i], now, Written(start, applied[..i]));
        ExactTrans(old(Holding(start)), w, Holding(Written(start, applied[..i + 1])));
      }
      assert applied[..|applied|] == applied;
    }

    /** `TransactWriteItems`. `lost` holds the items whose restore failed after another
        failure had already ended the transaction. */
    method TransactWriteItems(actions: seq<Action>, now: int)
      returns (r: Reply, ghost applied: seq<Applied>, lost: set<Ref>)
      requires Valid() && streams.clock <= now
      modifies this`tables, this`books, this`astray, this`faults, streams
      ensures Valid() && streams.clock <= now && Continuing({})
      ensures r.Success? ==> AllDone(h, lib, metas, actions, old(tables), tables) && Recounted(actions, applied)
      ensures !r.Success? ==> RolledBack(actions, lost)
      ensures |lost| <= faults - old(faults) && (r.Success? ==> faults == old(faults))
      ensures r.IOError? ==> |lost| < faults - old(faults)
      ensures r.Success? || r.IOError? || r.NoTable? || r.Canceled? || r.BadRequest?
      ensures r.BadRequest? ==>
                || (faults == old(faults) && !OneEach(h, metas, actions))
                || (faults == old(faults) && exists a :: a in actions && !a.NoAct? && Unclear(lib, Found(h, metas, old(tables), a), a.cond))
                || (exists a :: a in actions && Rejects(lib, a, Found(h, metas, old(tables), a)))
      ensures r.NoTable? ==> faults == old(faults) && lost == {} && exists a :: a in actions && !a.NoAct? && a.table !in metas
      ensures r.Canceled? ==>
                && faults == old(faults) && lost == {} && !AllPass(h, lib, metas, actions, old(tables))
                && |r.reasons| == |actions|
                && forall i :: 0 <= i < |actions| ==>
                     r.reasons[i] == ReasonOf(lib, actions[i], Found(h, metas, old(tables), actions[i]))
    {
      hide StateOk, WorldOk, OneEach, AllPass, AllDone, Progress, ItemAt, NotedAll, StrayedAll, Found, ReasonOf, Written, Placed, Rejects, Check, Allows, Denies, AllContinue, OnlyLost, Differing;
      applied, lost := [], {};
      WorldDomains(h, W());
      SameContinues(h, W(), W());
      NothingLost(h, lib, metas, actions, tables);
      NoDifference(tables, astray);
      var refused := CheckDuplicates(actions);
      if refused.Some? {
        r := refused.value;
        return;
      }
      refused := CheckConditions(actions);
      if refused.Some? {
        r := refused.value;
        return;
      }
      r, applied, lost := Perform(actions, now);
    }

    /** Nothing is reported, and every item is as it was but those that are lost, which are
        as an action left them. Tables that are not as they were are no longer accounted for. */
    twostate predicate RolledBack(actions: seq<Action>, lost: set<Ref>)
      reads this, streams
    {
      && W() == old(W()).(tables := tables, astray := old(astray) + Differing(old(tables), tables))
      && streams.St() == old(streams.St())
      && OnlyLost(h, lib, metas, actions, old(tables), tables, lost)
      && (lost == {} ==> tables == old(tables))
    }

    /** `applied` lists the writes with their snapshots in action order, and the books
        have them as changes. */
    twostate predicate Recounted(actions: seq<Action>, applied: seq<Applied>)
      reads this, streams
    {
      && metas == old(metas) && Progress(h, lib, metas, actions, applied, old(tables))
      && (forall x :: x in applied ==> x.ref.table in metas)
      && books == NotedAll(metas, old(books), applied) && astray == StrayedAll(h, metas, old(astray), applied)
    }

    /** Phase 2 and the stream records it ends with. */
    method Perform(actions: seq<Action>, now: int) returns (r: Reply, ghost applied: seq<Applied>, lost: set<Ref>)
      requires Valid() && streams.clock <= now
      requires OneEach(h, metas, actions) && AllPass(h, lib, metas, actions, tables)
      modifies this`tables, this`books, this`astray, this`faults, streams
      ensures Valid() && streams.clock <= now && Continuing({})
      ensures r.Success? || r.BadRequest? || r.IOError?
      ensures r.Success? ==> AllDone(h, lib, metas, actions, old(tables), tables) && Recounted(actions, applied)
      ensures !r.Success? ==> RolledBack(actions, lost)
      ensures |lost| <= faults - old(faults) && (r.Success? ==> faults == old(faults))
      ensures r.IOError? ==> |lost| < faults - old(faults)
      ensures r.BadRequest? ==> exists a :: a in actions && Rejects(lib, a, Found(h, metas, old(tables), a))
    {
      hide StateOk, WorldOk, OneEach, AllPass, AllDone, Progress, ItemAt, NotedAll, StrayedAll, Written, Placed, Rejects, Found, AllContinue, OnlyLost, Differing;
      WorldDomains(h, W());
      var refused, writes;
      refused, writes, lost := ApplyAll(actions);
      applied := writes;
      if refused.Some? {
        r := refused.value;
        astray := astray + Differing(old(tables), tables);
        LostAstray(h, old(W()), W(), actions, lib, lost);
        SameContinues(h, old(W()), W());
        return;
      }
      ProgressDone(h, lib, metas, actions, applied, old(tables));
      EmitAll(writes, now, actions, old(tables));
      r := Success;
    }

    // ---- batches

    /** Table t has gone through the puts and deletes, and its stream, if on, through one
        change for each that changed something, each with its true previous image. */
    twostate predicate Batch(t: string, puts: seq<Item>, deletes: seq<Item>)
      reads this, streams
    {
      && metas == old(metas) && astray == old(astray) && t in metas && t in old(tables)
      && tables == old(tables)[t := Batched(h, metas[t].schema, old(tables[t]), puts, deletes)]
      && books == NotedMany(metas, old(books), t, BatchChanges(h, metas[t].schema, old(tables[t]), puts, deletes))
    }

    /** `BatchWriteItems`: puts, then deletes, each its own step; an error stops it after
        a prefix. The previous item is only read for the stream. */
    method BatchWriteItems(t: string, puts: seq<Item>, deletes: seq<Item>, now: int)
      returns (r: Reply, ghost p: nat, ghost d: nat)
      requires Valid() && streams.clock <= now
      modifies this`tables, this`books, this`astray, this`faults, streams
      ensures Valid() && streams.clock <= now && Continuing({}) && p <= |puts| && d <= |deletes| && (d > 0 ==> p == |puts|)
      ensures r.Success? || r.NoTable? || r.BadRequest? || r.IOError?
      ensures r.NoTable? <==> t !in metas
      ensures faults >= old(faults) && (r.IOError? <==> faults > old(faults))
      ensures r.BadRequest? ==>
                && t in metas
                && (|| (p < |puts| && KeyOf(h, metas[t].schema, puts[p]).None?)
                    || (p == |puts| && d < |deletes| && KeyOf(h, metas[t].schema, deletes[d]).None?))
      ensures t !in metas ==> Untouched()
      ensures r.Success? <==> t in metas && p == |puts| && d == |deletes|
      ensures faults <= old(faults) + 1
      ensures t in metas ==> Keyed(h, metas[t].schema, puts[..p]) && Keyed(h, metas[t].schema, deletes[..d])
      ensures t in metas ==> Batch(t, puts[..p], deletes[..d])
    {
      hide StateOk, WorldOk, KeyOf, Reports, Batched, BatchChanges, AllContinue;
      WorldDomains(h, W());
      SameContinues(h, W(), W());
      p, d := 0, 0;
      if t !in metas {
        return NoTable, 0, 0;
      }
      r, p := BatchPuts(t, puts, now);
      assert deletes[..0] == [];
      if r.Success? {
        assert puts[..p] == puts;
        ghost var w := W();
        r, d := BatchDeletes(t, deletes, now, puts, old(tables[t]), old(books));
        Overwritten(old(tables), t, w.tables[t], tables[t]);
        ExactTrans(old(W()), w, W());
      }
    }

    method BatchPuts(t: string, puts: seq<Item>, now: int) returns (r: Reply, ghost p: nat)
      requires Valid() && streams.clock <= now && t in metas && t in tables
      modifies this`tables, this`books, this`astray, this`faults, streams
      ensures Valid() && streams.clock <= now && (r.Success? || r.BadRequest? || r.IOError?)
      ensures p <= |puts| && (r.Success? <==> p == |puts|) && faults <= old(faults) + 1
      ensures faults >= old(faults) && (r.IOError? <==> faults > old(faults))
      ensures r.BadRequest? ==> p < |puts| && KeyOf(h, metas[t].schema, puts[p]).None?
      ensures Keyed(h, metas[t].schema, puts[..p])
      ensures Batch(t, puts[..p], []) && Continuing({})
    {
      hide StateOk, WorldOk, KeyOf, Reports, Batched, BatchChanges, AllContinue, NotedMany;
      p := 0;
      NothingBatched(h, metas[t].schema, tables[t], puts[..0]);
      NotedNone(metas, books, t);
      SameContinues(h, W(), W());
      for i := 0 to |puts|
        invariant Valid() && streams.clock <= now && p == i && t in tables && faults == old(faults)
        invariant Keyed(h, metas[t].schema, puts[..i])
        invariant Batch(t, puts[..i], []) && Continuing({})
      {
        var k := KeyOf(h, metas[t].schema, puts[i]);
        if k.None? {
          r := BadRequest;
          return;
        }
        ghost var w := W();
        var ok := BatchStep(t, k.value, Some(puts[i]), now);
        ExactTrans(old(W()), w, W());
        if !ok {
          r := IOError;
          return;
        }
        p := p + 1;
        BatchedPut(h, metas[t].schema, old(tables[t]), puts[..i], puts[i]);
        NotedOne(metas, old(books), t, BatchChanges(h, metas[t].schema, old(tables[t]), puts[..i], []),
                 StepChanges(At(w.tables[t], k.value), k.value, Some(puts[i])));
        assert puts[..i + 1] == puts[..i] + [puts[i]];
      }
      r := Success;
    }

    method BatchDeletes(t: string, deletes: seq<Item>, now: int, ghost puts: seq<Item>, ghost start: Table, ghost books0: map<string, Book>)
      returns (r: Reply, ghost d: nat)
      requires Valid() && streams.clock <= now && t in metas && t in tables
      requires tables[t] == Batched(h, metas[t].schema, start, puts, [])
      requires books == NotedMany(metas, books0, t, BatchChanges(h, metas[t].schema, start, puts, []))
      modifies this`tables, this`books, this`astray, this`faults, streams
      ensures Valid() && streams.clock <= now && (r.Success? || r.BadRequest? || r.IOError?)
      ensures d <= |deletes| && (r.Success? <==> d == |deletes|) && faults <= old(faults) + 1
      ensures faults >= old(faults) && (r.IOError? <==> faults > old(faults))
      ensures r.BadRequest? ==> d < |deletes| && KeyOf(h, metas[t].schema, deletes[d]).None?
      ensures Keyed(h, metas[t].schema, deletes[..d])
      ensures tables == old(tables)[t := Batched(h, metas[t].schema, start, puts, deletes[..d])]
      ensures books == NotedMany(metas, books0, t, BatchChanges(h, metas[t].schema, start, puts, deletes[..d]))
      ensures astray == old(astray) && Continuing({})
    {
      hide StateOk, WorldOk, KeyOf, Reports, Batched, BatchChanges, AllContinue, NotedMany;
      d := 0;
      assert deletes[..0] == [];
      SameContinues(h, W(), W());
      for i := 0 to |deletes|
        invariant Valid() && streams.clock <= now && d == i && t in tables && faults == old(faults)
        invariant Keyed(h, metas[t].schema, deletes[..i])
        invariant tables == old(tables)[t := Batched(h, metas[t].schema, start, puts, deletes[..i])]
        invariant books == NotedMany(metas, books0, t, BatchChanges(h, metas[t].schema, start, puts, deletes[..i]))
        invariant astray == old(astray) && Continuing({})
      {
        var k := KeyOf(h, metas[t].schema, deletes[i]);
        if k.None? {
          r := BadRequest;
          return;
        }
        ghost var w := W();
        var ok := BatchStep(t, k.value, None, now);
        ExactTrans(old(W()), w, W());
        if !ok {
          r := IOError;
          return;
        }
        d := d + 1;
        BatchedDelete(h, metas[t].schema, start, puts, deletes[..i], deletes[i]);
        NotedOne(metas, books0, t, BatchChanges(h, metas[t].schema, start, puts, deletes[..i]),
                 StepChanges(At(w.tables[t], k.value), k.value, None));
        assert deletes[..i + 1] == deletes[..i] + [deletes[i]];
      }
      r := Success;
    }

    method BatchStep(t: string, k: Key, item: Option<Item>, now: int) returns (ok: bool)
      requires Valid() && streams.clock <= now && t in metas && t in tables
      requires item.Some? ==> KeyOf(h, metas[t].schema, item.value) == Some(k)
      modifies this`tables, this`books, this`astray, this`faults, streams
      ensures Valid() && streams.clock <= now && faults == old(faults) + if ok then 0 else 1
      ensures tables == if ok then old(tables)[t := Put(old(tables[t]), k, item)] else old(tables)
      ensures books == if ok then NotedMany(metas, old(books), t, StepChanges(At(old(tables[t]), k), k, item)) else old(books)
      ensures astray == old(astray) && Continuing({})
    {
      hide StateOk, WorldOk, KeyOf, Reports, AllContinue, RecordOf, Changed;
      SameContinues(h, W(), W());
      var current := At(tables[t], k);
      if metas[t].stream.Some? {
        ok, current := Read(t, k);
        if !ok {
          return false;
        }
      }
      if current.None? && item.None? {
        assert tables[t] - {k} == tables[t];
        NotedNone(metas, books, t);
        return true;
      }
      ok := Commit(t, Change(k, current, item, current), now);
    }

    // ---- tables

    /** `CreateTable`: an existing name is refused. */
    method CreateTable(t: string, meta: Meta, now: int) returns (r: Reply)
      requires Valid() && streams.clock <= now
      modifies this, streams
      ensures Valid() && streams.clock <= now && (r.Success? || r.BadRequest? || r.IOError?)
      ensures r.BadRequest? <==> t in old(metas)
      ensures faults >= old(faults) && (r.IOError? <==> faults > old(faults))
      ensures !r.Success? ==> Untouched()
      ensures r.Success? ==>
                && metas == old(metas)[t := meta] && tables == old(tables)[t := map[]] && astray == old(astray) - {t}
                && (meta.stream.Some? ==> Started(t, now))
                && OthersSame(old(W()), W(), t)
    {
      hide StateOk, WorldOk, OthersSame;
      ghost var w := W();
      WorldDomains(h, w);
      if t in metas {
        return BadRequest;
      }
      var ok := Attempt();
      if !ok {
        return IOError;
      }
      astray := astray - {t};
      PardonedKeeps(h, w, t);
      ghost var w' := W();
      Begin(t, meta, map[], now);
      OthersTrans(w, w', W(), t);
      r := Success;
    }

    /** Table t gets this metadata and contents, and a stream starts if it has one. */
    method Begin(t: string, meta: Meta, table: Table, now: int)
      requires Valid() && streams.clock <= now
      requires (t in astray || Filed(h, meta.schema, table)) && (t in metas ==> metas[t].stream.None?)
      modifies this`metas, this`tables, this`books, streams
      ensures Valid() && streams.clock <= now && OthersSame(old(W()), W(), t)
      ensures metas == old(metas)[t := meta] && tables == old(tables)[t := table]
      ensures meta.stream.Some? ==> Started(t, now)
    {
      hide StateOk, WorldOk, OthersSame, Filed, Newer;
      assert t !in streams.bufs;
      metas, tables := metas[t := meta], tables[t := table];
      ghost var left: seq<Record> := [];
      var readable := true;
      if meta.stream.Some? {
        readable := StartStream(t, now);
        left := streams.emitted[t];
      }
      assert W() == Begun(old(W()), t, meta, table, left, readable);
      BegunKeeps(h, old(W()), t, meta, table, left, readable);
    }

    /** A stream begins: what the table holds now is what its own records start from. It
        shows whatever an earlier stream left in the file that has not expired. */
    twostate predicate Started(t: string, now: int)
      reads this, streams
    {
      && t in streams.emitted && t in tables && t in books
      && books[t] == Book(tables[t], |streams.emitted[t]|, [])
      && t in streams.bufs && streams.bufs[t] == streams.emitted[t] && t !in streams.behind
      && (streams.emitted[t] == [] || streams.emitted[t] == Newer(FileOf(old(streams.files), t), now - RETENTION))
    }

    method StartStream(t: string, now: int) returns (readable: bool)
      requires streams.Valid() && streams.clock <= now && t !in streams.bufs && t in tables
      modifies this`books, streams
      ensures streams.Valid() && streams.clock == now && Started(t, now)
      ensures t in streams.emitted && streams.emitted == old(streams.emitted)[t := streams.emitted[t]]
      ensures streams.bufs == old(streams.bufs)[t := streams.emitted[t]]
      ensures streams.unsynced == if readable then old(streams.unsynced) - {t} else old(streams.unsynced) + {t}
      ensures streams.behind == old(streams.behind) - {t}
      ensures t in books && books == old(books)[t := Book(tables[t], |streams.emitted[t]|, [])]
    {
      hide StateOk, Newer;
      var done;
      readable, done := streams.Ensure(t, now);
      books := books[t := Book(tables[t], |streams.emitted[t]|, [])];
    }

    /** The stream part of `UpdateTable`: switching on starts a stream, switching off
        drops it, and a new view type goes on in the same buffer. */
    method UpdateTable(t: string, stream: Option<View>, now: int) returns (r: Reply)
      requires Valid() && streams.clock <= now
      modifies this`metas, this`tables, this`books, this`faults, streams
      ensures Valid() && streams.clock <= now && tables == old(tables) && (r.Success? || r.NoTable? || r.IOError?)
      ensures r.NoTable? <==> t !in old(metas)
      ensures faults >= old(faults) && (r.IOError? <==> faults > old(faults))
      ensures !r.Success? ==> Untouched()
      ensures r.Success? ==>
                && t in old(metas) && metas == old(metas)[t := old(metas[t]).(stream := stream)]
                && OthersSame(old(W()), W(), t)
                && (stream.Some? && old(metas[t]).stream.None? ==> Started(t, now))
                && (stream.Some? && old(metas[t]).stream.Some? ==>
                      books == old(books) && streams.emitted == old(streams.emitted))
    {
      hide StateOk, WorldOk, OthersSame, Newer;
      ghost var w := W();
      WorldDomains(h, w);
      if t !in metas {
        return NoTable;
      }
      var ok := Attempt();
      if !ok {
        return IOError;
      }
      r := Success;
      assert t in streams.bufs <==> metas[t].stream.Some?;
      if stream.None? {
        SwitchOff(t);
      } else if t !in streams.bufs {
        WorldTable(h, w, t);
        assert tables == tables[t := tables[t]];
        Begin(t, metas[t].(stream := stream), tables[t], now);
      } else {
        ChangeView(t, stream.value, now);
      }
    }

    method SwitchOff(t: string)
      requires Valid() && t in metas
      modifies this`metas, streams
      ensures Valid() && streams.clock == old(streams.clock) && OthersSame(old(W()), W(), t)
      ensures metas == old(metas)[t := old(metas[t]).(stream := None)]
    {
      hide StateOk, WorldOk, OthersSame;
      metas := metas[t := metas[t].(stream := None)];
      var _ := streams.Drop(t);
      assert W() == Silenced(old(W()), t);
      SilencedKeeps(h, old(W()), t);
    }

    method ChangeView(t: string, view: View, now: int)
      requires Valid() && streams.clock <= now && t in streams.bufs && t in metas && metas[t].stream.Some?
      modifies this`metas, streams
      ensures Valid() && streams.clock == now && OthersSame(old(W()), W(), t)
      ensures metas == old(metas)[t := old(metas[t]).(stream := Some(view))] && streams.emitted == old(streams.emitted)
    {
      hide StateOk, WorldOk, OthersSame;
      metas := metas[t := metas[t].(stream := Some(view))];
      var _, _ := streams.Ensure(t, now);
      assert W() == Viewed(old(W()), t, view);
      ViewedKeeps(h, old(W()), t, view);
    }

    /** `DeleteTable`: files go one by one, so an error leaves the table with some of its
        items and no record of the rest. */
    method DeleteTable(t: string) returns (r: Reply)
      requires Valid()
      modifies this, streams
      ensures Valid() && (r.Success? || r.NoTable? || r.IOError?) && streams.clock == old(streams.clock)
      ensures r.NoTable? <==> t !in old(metas)
      ensures faults >= old(faults) && (r.IOError? <==> faults > old(faults))
      ensures r.NoTable? ==> Untouched()
      ensures r.Success? ==>
                && metas == old(metas) - {t} && tables == old(tables) - {t} && astray == old(astray)
                && OthersSame(old(W()), W(), t)
      ensures r.IOError? ==>
                && t in old(tables) && t in tables && tables - {t} == old(tables) - {t}
                && (forall k :: k in tables[t] ==> At(tables[t], k) == At(old(tables[t]), k))
                && W() == old(W()).(tables := tables, astray := if tables[t] == old(tables[t]) then old(astray) else old(astray) + {t})
    {
      hide StateOk, WorldOk, OthersSame, At, Put;
      ghost var w := W();
      WorldDomains(h, w);
      if t !in metas {
        return NoTable;
      }
      var ok := ClearTable(t);
      if ok {
        ok := Attempt();
      }
      if !ok {
        astray := if tables[t] == old(tables[t]) then astray else astray + {t};
        PartKeeps(h, w, W(), t);
        return IOError;
      }
      Forget(t, w);
      r := Success;
    }

    /** The metadata and the stream go too; w is the world before. */
    method Forget(t: string, ghost w: World)
      requires streams.Valid() && Buffered() && WorldOk(h, w)
      requires W() == w.(tables := tables) && tables - {t} == w.tables - {t}
      modifies this`metas, this`tables, streams
      ensures Valid() && streams.clock == old(streams.clock) && OthersSame(w, W(), t)
      ensures metas == old(metas) - {t} && tables == old(tables) - {t}
    {
      hide StateOk, WorldOk, OthersSame;
      metas, tables := metas - {t}, tables - {t};
      var _ := streams.Drop(t);
      assert W() == Dropped(w, t);
      DroppedKeeps(h, w, t);
    }

    /** Removes the items one by one. */
    method ClearTable(t: string) returns (ok: bool)
      requires t in tables
      modifies this`tables, this`faults
      ensures t in tables && tables - {t} == old(tables) - {t} && faults == old(faults) + if ok then 0 else 1
      ensures forall k :: k in tables[t] ==> At(tables[t], k) == At(old(tables[t]), k)
    {
      var rest := tables[t].Keys;
      while rest != {}
        invariant t in tables && rest <= tables[t].Keys && tables - {t} == old(tables) - {t} && faults == old(faults)
        invariant forall k :: k in tables[t] ==> At(tables[t], k) == At(old(tables[t]), k)
        decreases rest
      {
        var k :| k in rest;
        ok := Write(t, k, None);
        if !ok {
          return;
        }
        rest := rest - {k};
      }
      ok := true;
    }

    /** The periodic trim of one table's stream (`trimStreamForTable`). */
    method Trim(t: string, now: int) returns (done: bool)
      requires Valid() && streams.clock <= now
      modifies streams
      ensures Valid() && streams.clock == now
      ensures W() == if t in old(streams.bufs) then Trimmed(old(W()), t, now - RETENTION) else old(W())
    {
      hide StateOk, WorldOk, Newer;
      ghost var moments;
      done, moments := streams.Trim(t, now);
      if t in streams.bufs {
        TrimmedKeeps(h, old(W()), t, now - RETENTION);
      }
    }

    /** A new process on the same files: the store is as it was, and each stream has lost
        its expired records only, unless its file cannot be read or was not in step. */
    method Restart(now: int) returns (ghost unread: set<string>)
      requires Valid() && streams.clock <= now
      modifies this`faults, streams
      ensures Valid() && streams.clock == now
      ensures faults == old(faults) + |unread|
      ensures IsRestart(old(streams.St()), streams.St(), now, unread)
      ensures W() == old(W()).(bufs := streams.bufs, unsynced := unread, behind := Behind(old(streams.St()), unread))
      ensures forall t :: t in old(streams.bufs) && t !in unread && t !in old(streams.unsynced) ==>
                t in streams.bufs && streams.bufs[t] == Newer(old(streams.bufs[t]), now - RETENTION)
    {
      hide StateOk, WorldOk, Newer, AtMost, Restored, IsRestart, ReadBack, Behind;
      var tables := set t | t in metas && metas[t].stream.Some?;
      assert tables == streams.bufs.Keys;
      unread := streams.Restart(tables, now);
      faults := faults + |unread|;
      RestartParts(old(streams.St()), streams.St(), now, unread);
      ReshownKeeps(h, old(W()), W());
    }
  }

  /** The item an update works on, and what it makes of it. */
  function Updated(lib: Lib, current: Option<Item>, key: Item, updates: Updates, order: seq<string>): Option<Images>
    requires forall k :: k in order ==> k in updates
  {
    ImagesIn(lib, Met(current, key), updates, order)
  }

  /** The item an update starts from: the bare key if there is none. */
  function Met(current: Option<Item>, key: Item): Item { if current.Some? then current.value else key }

  /** The previous image: none if the item did not exist. */
  function Shown(current: Option<Item>, im: Images): Option<Item> {
    if current.Some? then Some(im.shown) else None
  }

  /** As long as a table is accounted for, an update that leaves the key attributes alone
      stores the item under its own key. */
  lemma UpdateFits(h: Hash, w: World, lib: Lib, t: string, k: Key, key: Item, updates: Updates, order: seq<string>)
    requires WorldOk(h, w) && t in w.metas && t !in w.astray && KeyOf(h, w.metas[t].schema, key) == Some(k)
    requires KeepsKeys(w.metas[t].schema, updates) && forall j :: j in order ==> j in updates
    requires t in w.tables && Updated(lib, At(w.tables[t], k), key, updates, order).Some?
    ensures var im := Updated(lib, At(w.tables[t], k), key, updates, order).value;
            Fits(h, w.metas[t].schema, Change(k, At(w.tables[t], k), Some(im.after), Shown(At(w.tables[t], k), im)))
  {
    hide KeyOf, ImagesIn, WorldOk;
    var current := At(w.tables[t], k);
    WorldTable(h, w, t);
    UpdateKeepsKey(h, lib, w.metas[t].schema, if current.Some? then current.value else key, updates, order);
  }

  /** With an injective hash a table goes astray exactly by an item whose key attributes
      are not those of the item, or the key, it was made from. */
  lemma StraysExactly(h: Hash, schema: Schema, item: Item, after: Item, c: Change)
    requires forall x, y :: h(x) == h(y) ==> x == y
    requires KeyOf(h, schema, item) == Some(c.key) && c.after == Some(after)
    ensures Fits(h, schema, c) <==> forall a :: IsKeyAttr(schema, a) ==> Lookup(after, a) == Lookup(item, a)
  {
    if Fits(h, schema, c) {
      assert KeyParts(schema, item) == KeyParts(schema, after);
      var parts := KeyParts(schema, item).value;
      assert parts[0] == (schema.hash, item[schema.hash]);
      if schema.sort.Some? {
        assert parts[1] == (schema.sort.value, item[schema.sort.value]);
      }
    } else if forall a :: IsKeyAttr(schema, a) ==> Lookup(after, a) == Lookup(item, a) {
      SameKey(h, schema, after, item);
    }
  }

  lemma NoDifference(ts: Tables, astray: set<string>)
    ensures Differing(ts, ts) == {} && astray + Differing(ts, ts) == astray
  {
  }

  /** What a failed rollback leaves is still a good state. */
  lemma LostAstray(h: Hash, w: World, w': World, actions: seq<Action>, lib: Lib, lost: set<Ref>)
    requires WorldOk(h, w) && w' == w.(tables := w'.tables, astray := w.astray + Differing(w.tables, w'.tables))
    requires OnlyLost(h, lib, w.metas, actions, w.tables, w'.tables, lost)
    ensures WorldOk(h, w')
  {
    hide WorldOk, LeftBy, ItemAt;
    StrayContents(h, w, w', w'.tables);
  }

  lemma PlacedTables(metas: map<string, Meta>, ts: Tables, applied: seq<Applied>)
    requires Placed(ts, applied) && metas.Keys == ts.Keys
    ensures forall x :: x in applied ==> x.ref.table in metas
  {
  }

  // ---- what a batch does

  /** Every item has the key attributes. */
  predicate Keyed(h: Hash, schema: Schema, items: seq<Item>) {
    forall i :: 0 <= i < |items| ==> KeyOf(h, schema, items[i]).Some?
  }

  /** The table after the puts and then the deletes. */
  function Batched(h: Hash, schema: Schema, table: Table, puts: seq<Item>, deletes: seq<Item>): Table {
    if deletes != [] then
      var n := |deletes| - 1;
      var k := KeyOf(h, schema, deletes[n]);
      Put(Batched(h, schema, table, puts, deletes[..n]), if k.Some? then k.value else 0, None)
    else if puts != [] then
      var n := |puts| - 1;
      var k := KeyOf(h, schema, puts[n]);
      Put(Batched(h, schema, table, puts[..n], []), if k.Some? then k.value else 0, Some(puts[n]))
    else table
  }

  lemma Overwritten(tables: Tables, t: string, one: Table, two: Table)
    ensures tables[t := one][t := two] == tables[t := two]
  {
  }

  lemma NothingBatched(h: Hash, schema: Schema, table: Table, none: seq<Item>)
    requires none == []
    ensures Batched(h, schema, table, none, []) == table && BatchChanges(h, schema, table, none, []) == []
  {
  }

  lemma BatchedPut(h: Hash, schema: Schema, table: Table, puts: seq<Item>, item: Item)
    requires KeyOf(h, schema, item).Some?
    ensures Batched(h, schema, table, puts + [item], [])
            == Put(Batched(h, schema, table, puts, []), KeyOf(h, schema, item).value, Some(item))
    ensures BatchChanges(h, schema, table, puts + [item], [])
            == BatchChanges(h, schema, table, puts, [])
               + StepChanges(At(Batched(h, schema, table, puts, []), KeyOf(h, schema, item).value), KeyOf(h, schema, item).value, Some(item))
  {
    assert (puts + [item])[..|puts|] == puts;
  }

  lemma BatchedDelete(h: Hash, schema: Schema, table: Table, puts: seq<Item>, deletes: seq<Item>, key: Item)
    requires KeyOf(h, schema, key).Some?
    ensures Batched(h, schema, table, puts, deletes + [key])
            == Put(Batched(h, schema, table, puts, deletes), KeyOf(h, schema, key).value, None)
    ensures BatchChanges(h, schema, table, puts, deletes + [key])
            == BatchChanges(h, schema, table, puts, deletes)
               + StepChanges(At(Batched(h, schema, table, puts, deletes), KeyOf(h, schema, key).value), KeyOf(h, schema, key).value, None)
  {
    assert (deletes + [key])[..|deletes|] == deletes;
  }

  /** The change one write of a batch is; removing what is not there is none. */
  function StepChanges(before: Option<Item>, k: Key, after: Option<Item>): seq<Change> {
    if before.None? && after.None? then [] else [Change(k, before, after, before)]
  }

  /** The changes a batch makes, one by one, each with the true previous image. */
  function BatchChanges(h: Hash, schema: Schema, table: Table, puts: seq<Item>, deletes: seq<Item>): seq<Change> {
    if deletes != [] then
      var n := |deletes| - 1;
      var k := KeyOf(h, schema, deletes[n]);
      var key := if k.Some? then k.value else 0;
      BatchChanges(h, schema, table, puts, deletes[..n])
      + StepChanges(At(Batched(h, schema, table, puts, deletes[..n]), key), key, None)
    else if puts != [] then
      var n := |puts| - 1;
      var k := KeyOf(h, schema, puts[n]);
      var key := if k.Some? then k.value else 0;
      BatchChanges(h, schema, table, puts[..n], [])
      + StepChanges(At(Batched(h, schema, table, puts[..n], []), key), key, Some(puts[n]))
    else []
  }

  function NotedMany(metas: map<string, Meta>, books: map<string, Book>, t: string, cs: seq<Change>): map<string, Book>
    requires t in metas
  {
    if metas[t].stream.Some? && t in books then books[t := books[t].(changes := books[t].changes + cs)] else books
  }

  lemma NotedNone(metas: map<string, Meta>, books: map<string, Book>, t: string)
    requires t in metas
    ensures NotedMany(metas, books, t, []) == books
  {
    if t in books {
      assert books[t].changes + [] == books[t].changes;
    }
  }

  lemma NotedOne(metas: map<string, Meta>, books: map<string, Book>, t: string, cs: seq<Change>, more: seq<Change>)
    requires t in metas
    ensures NotedMany(metas, NotedMany(metas, books, t, cs), t, more) == NotedMany(metas, books, t, cs + more)
  {
    if t in books {
      assert books[t].changes + cs + more == books[t].changes + (cs + more);
    }
  }

  /** The last put of a key counts, and a delete of it counts over all puts. */
  lemma {:induction false} BatchMeaning(h: Hash, schema: Schema, table: Table, puts: seq<Item>, deletes: seq<Item>, k: Key)
    requires forall x :: x in puts + deletes ==> KeyOf(h, schema, x).Some?
    ensures At(Batched(h, schema, table, puts, deletes), k)
            == if Names(h, schema, deletes, k) then None
               else if Names(h, schema, puts, k) then Some(LastNamed(h, schema, puts, k))
               else At(table, k)
  {
    hide KeyOf;
    if deletes != [] {
      var n := |deletes| - 1;
      assert deletes == deletes[..n] + [deletes[n]];
      assert deletes[n] in puts + deletes;
      BatchMeaning(h, schema, table, puts, deletes[..n], k);
    } else if puts != [] {
      var n := |puts| - 1;
      assert puts == puts[..n] + [puts[n]];
      assert puts[n] in puts + deletes;
      BatchMeaning(h, schema, table, puts[..n], [], k);
    }
  }

  predicate Names(h: Hash, schema: Schema, items: seq<Item>, k: Key) {
    exists x :: x in items && KeyOf(h, schema, x) == Some(k)
  }

  function LastNamed(h: Hash, schema: Schema, items: seq<Item>, k: Key): Item
    requires Names(h, schema, items, k)
  {
    var n := |items| - 1;
    if KeyOf(h, schema, items[n]) == Some(k) then items[n]
    else
      assert items == items[..n] + [items[n]];
      LastNamed(h, schema, items[..n], k)
  }
}
