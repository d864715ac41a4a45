/** Conditional writes: what a condition that was compiled from a WHERE clause lets through,
    and what a transaction has done, told by the items. */
module Conditions {
  import opened Values
  import opened Updates
  import opened Effects
  import opened Records
  import opened Engine
  import opened PartiQL
  import opened PartiQLMeaning
  import opened Actions
  import opened Storage

  function Compiled(conds: seq<Where>): Option<Condition> {
    Some(Condition(FilterText(conds, 0), BindingsOf(conds)))
  }

  lemma TextNotEmpty(conds: seq<Where>)
    requires conds != []
    ensures FilterText(conds, 0) != ""
  {
    assert PartText(0, conds[0]) != "";
  }

  /** The compiled clause lets an item through exactly if it satisfies every condition,
      and turns it away otherwise. */
  lemma ClauseDecides(lib: Lib, conds: seq<Where>, current: Option<Item>)
    requires conds != [] && AllInOk(conds)
    ensures Allows(lib, current, Compiled(conds)) <==> AllHold(lib, conds, Looked(current))
    ensures Denies(lib, current, Compiled(conds)) <==> !AllHold(lib, conds, Looked(current))
  {
    hide AllHold, AllInOk, FilterText, BindingsOf, Allows, Denies, Evaluation.EvalFilter;
    TextNotEmpty(conds);
    CheckMeans(lib, current, Compiled(conds));
    CompilePreservesMeaning(lib, conds, Looked(current));
  }

  /** The item of a table under a key; None if there is none, or no such table or key. */
  ghost function ItemUnder(h: Hash, metas: map<string, Meta>, tables: map<string, Table>, t: string, key: Item): Option<Item> {
    if t !in metas || t !in tables || KeyOf(h, metas[t].schema, key).None? then None
    else At(tables[t], KeyOf(h, metas[t].schema, key).value)
  }

  method PutWhere(s: Storage, t: string, item: Item, conds: seq<Where>, now: int) returns (r: Reply)
    requires s.Valid() && s.streams.clock <= now && conds != [] && AllInOk(conds)
    modifies s, s.streams
    ensures s.Valid() && s.metas == old(s.metas)
    ensures r.NoTable? || r.IOError? || r.BadRequest? || r.CheckFailed? || r.Done?
    ensures r.Done? ==> AllHold(s.lib, conds, Looked(old(ItemUnder(s.h, s.metas, s.tables, t, item))))
    ensures r.Done? ==> ItemUnder(s.h, s.metas, s.tables, t, item) == Some(item)
    ensures r.CheckFailed? ==> !AllHold(s.lib, conds, Looked(old(ItemUnder(s.h, s.metas, s.tables, t, item))))
    ensures r.BadRequest? ==> t in s.metas && KeyOf(s.h, s.metas[t].schema, item).None?
    ensures !r.Done? ==> s.tables == old(s.tables)
  {
    hide AllHold, AllInOk, FilterText, BindingsOf, Allows, Denies, KeyOf, StreamLog.StateOk, WorldOk, AllContinue, RecordOf;
    WorldDomains(s.h, s.W());
    ClauseDecides(s.lib, conds, ItemUnder(s.h, s.metas, s.tables, t, item));
    r := s.PutItem(t, item, Compiled(conds), now);
  }

  method DeleteWhere(s: Storage, t: string, key: Item, conds: seq<Where>, now: int) returns (r: Reply)
    requires s.Valid() && s.streams.clock <= now && conds != [] && AllInOk(conds)
    modifies s, s.streams
    ensures s.Valid() && s.metas == old(s.metas)
    ensures r.NoTable? || r.IOError? || r.BadRequest? || r.CheckFailed? || r.Done?
    ensures r.Done? ==> AllHold(s.lib, conds, Looked(old(ItemUnder(s.h, s.metas, s.tables, t, key))))
    ensures r.Done? ==> ItemUnder(s.h, s.metas, s.tables, t, key).None?
    ensures r.CheckFailed? ==> !AllHold(s.lib, conds, Looked(old(ItemUnder(s.h, s.metas, s.tables, t, key))))
    ensures r.BadRequest? ==> t in s.metas && KeyOf(s.h, s.metas[t].schema, key).None?
    ensures !r.Done? ==> s.tables == old(s.tables)
  {
    hide AllHold, AllInOk, FilterText, BindingsOf, Allows, Denies, KeyOf, StreamLog.StateOk, WorldOk, AllContinue, RecordOf;
    WorldDomains(s.h, s.W());
    ClauseDecides(s.lib, conds, ItemUnder(s.h, s.metas, s.tables, t, key));
    r := s.DeleteItem(t, key, Compiled(conds), now);
  }

  method UpdateWhere(s: Storage, t: string, key: Item, updates: Updates, conds: seq<Where>, now: int) returns (r: Reply)
    requires s.Valid() && s.streams.clock <= now && conds != [] && AllInOk(conds)
    modifies s, s.streams
    ensures s.Valid() && s.metas == old(s.metas)
    ensures r.NoTable? || r.IOError? || r.BadRequest? || r.CheckFailed? || r.Done?
    ensures r.Done? ==> AllHold(s.lib, conds, Looked(old(ItemUnder(s.h, s.metas, s.tables, t, key))))
    ensures r.Done? ==>
              && ItemUnder(s.h, s.metas, s.tables, t, key).Some?
              && AllEffected(s.lib, Met(old(ItemUnder(s.h, s.metas, s.tables, t, key)), key),
                             ItemUnder(s.h, s.metas, s.tables, t, key).value, updates)
    ensures r.CheckFailed? ==> !AllHold(s.lib, conds, Looked(old(ItemUnder(s.h, s.metas, s.tables, t, key))))
    ensures r.BadRequest? && Independent(updates) ==>
              && t in s.metas
              && (KeyOf(s.h, s.metas[t].schema, key).None? || SomeRefused(s.lib, Met(ItemUnder(s.h, s.metas, s.tables, t, key), key), updates))
    ensures !r.Done? ==> s.tables == old(s.tables)
  {
    hide AllHold, AllInOk, FilterText, BindingsOf, Allows, Denies, KeyOf, StreamLog.StateOk, WorldOk, AllContinue, RecordOf, AllEffected, SomeRefused, Independent, ImagesIn;
    WorldDomains(s.h, s.W());
    ClauseDecides(s.lib, conds, ItemUnder(s.h, s.metas, s.tables, t, key));
    ghost var order;
    r, order := s.UpdateItem(t, key, updates, Compiled(conds), now);
  }

  // ---- transactions

  /** What the action says of the items it found and left. */
  ghost predicate Carried(lib: Lib, a: Action, before: Option<Item>, after: Option<Item>) {
    && (a.PutAct? ==> after == Some(a.key))
    && (a.DeleteAct? ==> after.None?)
    && (a.CheckAct? ==> after == before)
    && (a.UpdateAct? ==> after.Some? && AllEffected(lib, Met(before, a.key), after.value, a.updates))
  }

  lemma AchievedIsCarried(lib: Lib, a: Action, before: Option<Item>, after: Option<Item>)
    requires Achieves(lib, a, before, after) && !a.NoAct?
    ensures Carried(lib, a, before, after)
  {
    hide ImagesIn, AllEffected;
    if a.UpdateAct? {
      var order :| IterationOf(order, a.updates) && Result(lib, before, a.key, a.updates, order) == after && after.Some?;
      UpdateMeans(lib, Met(before, a.key), a.updates, order);
    }
  }

  /** The item an action finds is the one under its key. */
  lemma FoundIsUnder(h: Hash, metas: map<string, Meta>, ts: Tables, a: Action)
    requires !a.NoAct?
    ensures Found(h, metas, ts, a) == ItemUnder(h, metas, ts, a.table, a.key)
    ensures RefOf(h, metas, a).Some? ==> Found(h, metas, ts, a) == ItemAt(ts, RefOf(h, metas, a).value)
  {
    hide KeyOf;
  }

  /** A transaction that was carried out found each clause satisfied on the store at the
      start, and each action has done to the item under its key what it says. */
  lemma TransactionMeans(h: Hash, lib: Lib, metas: map<string, Meta>, actions: seq<Action>, before: Tables, after: Tables, a: Action)
    requires AllDone(h, lib, metas, actions, before, after) && a in actions && !a.NoAct?
    ensures a.table in metas && KeyOf(h, metas[a.table].schema, a.key).Some?
    ensures Carried(lib, a, ItemUnder(h, metas, before, a.table, a.key), ItemUnder(h, metas, after, a.table, a.key))
    ensures forall conds :: conds != [] && AllInOk(conds) && a.cond == Compiled(conds) ==>
              AllHold(lib, conds, Looked(ItemUnder(h, metas, before, a.table, a.key)))
  {
    hide Carried, Achieves, ItemAt, RefOf, Found, ItemUnder, Allows, AllHold, AllInOk, Compiled, KeyOf;
    var i :| 0 <= i < |actions| && actions[i] == a;
    HasRef(h, metas, actions, i);
    HasKey(h, metas, a);
    FoundIsUnder(h, metas, before, a);
    FoundIsUnder(h, metas, after, a);
    var found := ItemAt(before, RefOf(h, metas, a).value);
    AchievedIsCarried(lib, a, found, ItemAt(after, RefOf(h, metas, a).value));
    forall conds | conds != [] && AllInOk(conds) && a.cond == Compiled(conds)
      ensures AllHold(lib, conds, Looked(found))
    {
      ClauseDecides(lib, conds, found);
    }
  }

  lemma HasKey(h: Hash, metas: map<string, Meta>, a: Action)
    requires RefOf(h, metas, a).Some?
    ensures a.table in metas && KeyOf(h, metas[a.table].schema, a.key).Some?
  {
    hide KeyOf;
  }

  /** A cancellation gives a reason exactly for the actions whose clause is not satisfied,
      with the item where it was asked for. */
  lemma ReasonMeans(lib: Lib, a: Action, current: Option<Item>, conds: seq<Where>)
    requires !a.NoAct? && conds != [] && AllInOk(conds) && a.cond == Compiled(conds)
    ensures ReasonOf(lib, a, current)
            == if AllHold(lib, conds, Looked(current)) then NoReason else ConditionFailed(if a.showOld then current else None)
  {
    hide Allows, Denies, AllHold, AllInOk, Compiled;
    ClauseDecides(lib, conds, current);
  }
}
