/** Transaction actions as values: what each does to the item it names, and what a
    list of writes makes of the whole store. */
module Actions {
  import opened Values
  import opened Evaluation
  import opened Updates
  import UpdateOrder
  import Meaning
  import Parser
  import Lexer
  import opened Records
  import opened Engine

  datatype Condition = Condition(expr: string, bindings: Bindings)

  datatype Verdict = Pass | Fail | Invalid

  /** `evalCondition`: an absent item is checked as an empty one. */
  function Check(lib: Lib, current: Option<Item>, cond: Option<Condition>): Verdict {
    if cond.None? || cond.value.expr == "" then Pass
    else
      match EvalFilter(lib, cond.value.expr, cond.value.bindings, if current.Some? then current.value else map[])
      case Error => Invalid
      case Ok(holds) => if holds then Pass else Fail
  }

  /** The item a condition looks at. */
  function Looked(current: Option<Item>): Item { if current.Some? then current.value else map[] }

  /** The condition has a tree, its placeholders are bound, and no size is missing. */
  ghost predicate Clear(lib: Lib, current: Option<Item>, c: Condition) {
    && Parser.ParseFilter(c.expr).Some?
    && RefsBound(Lexer.Lex(c.expr).value, c.bindings)
    && !Meaning.Fails(lib, c.bindings, Looked(current), Parser.ParseFilter(c.expr).value)
  }

  /** There is no condition, or the item meets it. */
  ghost predicate Allows(lib: Lib, current: Option<Item>, cond: Option<Condition>) {
    cond.None? || cond.value.expr == ""
    || (Clear(lib, current, cond.value)
        && Meaning.Meets(lib, cond.value.bindings, Looked(current), Parser.ParseFilter(cond.value.expr).value))
  }

  /** There is a condition, and the item does not meet it. */
  ghost predicate Denies(lib: Lib, current: Option<Item>, cond: Option<Condition>) {
    && cond.Some? && cond.value.expr != "" && Clear(lib, current, cond.value)
    && !Meaning.Meets(lib, cond.value.bindings, Looked(current), Parser.ParseFilter(cond.value.expr).value)
  }

  /** The condition cannot be decided. */
  ghost predicate Unclear(lib: Lib, current: Option<Item>, cond: Option<Condition>) {
    !Allows(lib, current, cond) && !Denies(lib, current, cond)
  }

  /** The check decides what the condition means. */
  lemma CheckMeans(lib: Lib, current: Option<Item>, cond: Option<Condition>)
    ensures Check(lib, current, cond) == Pass <==> Allows(lib, current, cond)
    ensures Check(lib, current, cond) == Fail <==> Denies(lib, current, cond)
    ensures Check(lib, current, cond) == Invalid <==> Unclear(lib, current, cond)
  {
    hide EvalFilter, Meaning.Meets, Meaning.Fails;
    if cond.Some? {
      Meaning.TextMeans(lib, cond.value.expr, cond.value.bindings, Looked(current));
    }
  }

  lemma OneVerdict(lib: Lib, current: Option<Item>, cond: Option<Condition>)
    ensures !(Allows(lib, current, cond) && Denies(lib, current, cond))
  {
    hide Clear;
  }

  /** `key` is the item itself for a put. NoAct is an action with no field set. */
  datatype Action =
    | PutAct(table: string, key: Item, cond: Option<Condition>, showOld: bool)
    | DeleteAct(table: string, key: Item, cond: Option<Condition>, showOld: bool)
    | UpdateAct(table: string, key: Item, updates: Updates, cond: Option<Condition>, showOld: bool)
    | CheckAct(table: string, key: Item, cond: Option<Condition>, showOld: bool)
    | NoAct

  predicate Writes(a: Action) { a.PutAct? || a.DeleteAct? || a.UpdateAct? }

  /** One item of the store. */
  datatype Ref = Ref(table: string, key: Key)

  type Tables = map<string, Table>

  function ItemAt(ts: Tables, ref: Ref): Option<Item> {
    if ref.table in ts then At(ts[ref.table], ref.key) else None
  }

  function PutAt(ts: Tables, ref: Ref, item: Option<Item>): Tables
    requires ref.table in ts
  {
    ts[ref.table := Put(ts[ref.table], ref.key, item)]
  }

  lemma PutAtReads(ts: Tables, ref: Ref, item: Option<Item>, other: Ref)
    requires ref.table in ts
    ensures ItemAt(PutAt(ts, ref, item), other) == if other == ref then item else ItemAt(ts, other)
  {
  }

  lemma SameTableItems(t: Table, u: Table)
    requires forall k: Key :: At(t, k) == At(u, k)
    ensures t == u
  {
    assert forall k :: k in t <==> At(t, k).Some?;
    assert forall k :: k in u <==> At(u, k).Some?;
    assert forall k :: k in t ==> At(t, k) == Some(t[k]) && At(u, k) == Some(u[k]);
  }

  lemma SameItems(ts: Tables, us: Tables)
    requires ts.Keys == us.Keys && forall ref: Ref :: ItemAt(ts, ref) == ItemAt(us, ref)
    ensures ts == us
  {
    forall t | t in ts
      ensures ts[t] == us[t]
    {
      forall k: Key
        ensures At(ts[t], k) == At(us[t], k)
      {
        assert ItemAt(ts, Ref(t, k)) == ItemAt(us, Ref(t, k));
      }
      SameTableItems(ts[t], us[t]);
    }
  }

  /** The item an action names; None when there is no such table or the key is incomplete. */
  function RefOf(h: Hash, metas: map<string, Meta>, a: Action): Option<Ref> {
    if a.NoAct? || a.table !in metas then None
    else
      var k := KeyOf(h, metas[a.table].schema, a.key);
      if k.None? then None else Some(Ref(a.table, k.value))
  }

  /** Every action names an item, and no two name the same. */
  predicate OneEach(h: Hash, metas: map<string, Meta>, actions: seq<Action>) {
    && (forall i :: 0 <= i < |actions| && !actions[i].NoAct? ==> RefOf(h, metas, actions[i]).Some?)
    && forall i, j :: 0 <= i < j < |actions| && !actions[i].NoAct? && !actions[j].NoAct? ==>
         RefOf(h, metas, actions[i]) != RefOf(h, metas, actions[j])
  }

  /** The action can turn `before` into `after`: for an update, under some order in
      which the map of its entries is iterated. */
  ghost predicate Achieves(lib: Lib, a: Action, before: Option<Item>, after: Option<Item>) {
    match a
    case PutAct(_, item, _, _) => after == Some(item)
    case DeleteAct(_, _, _, _) => after.None?
    case UpdateAct(_, key, updates, _, _) =>
      exists order :: IterationOf(order, updates) && Result(lib, before, key, updates, order) == after && after.Some?
    case _ => after == before
  }

  /** The action is an update that some iteration order rejects. */
  ghost predicate Rejects(lib: Lib, a: Action, before: Option<Item>) {
    && a.UpdateAct?
    && exists order :: NoDuplicates(order) && (forall k :: k in order ==> k in a.updates)
                       && Result(lib, before, a.key, a.updates, order).None?
  }

  /** The item after an update in one iteration order; None if an entry is rejected. */
  function Result(lib: Lib, before: Option<Item>, key: Item, updates: Updates, order: seq<string>): Option<Item>
    requires forall k :: k in order ==> k in updates
  {
    var im := ImagesIn(lib, if before.Some? then before.value else key, updates, order);
    if im.None? then None else Some(im.value.after)
  }

  /** The second store is the first with all actions done: each item named holds the
      outcome of its one action on the first store, where the condition held, and
      every other item is as it was. Nothing here depends on the order of actions. */
  ghost predicate AllDone(h: Hash, lib: Lib, metas: map<string, Meta>, actions: seq<Action>, before: Tables, after: Tables) {
    && before.Keys == after.Keys
    && OneEach(h, metas, actions)
    && (forall a :: a in actions && !a.NoAct? ==>
          && Allows(lib, ItemAt(before, RefOf(h, metas, a).value), a.cond)
          && Achieves(lib, a, ItemAt(before, RefOf(h, metas, a).value), ItemAt(after, RefOf(h, metas, a).value)))
    && forall ref: Ref :: (forall a :: a in actions ==> Some(ref) != RefOf(h, metas, a)) ==>
         ItemAt(after, ref) == ItemAt(before, ref)
  }

  /** The update means the same in every iteration order. */
  predicate Orderless(a: Action) {
    a.UpdateAct? ==> UpdateOrder.Compatible(a.updates)
  }

  lemma AchievesUnique(lib: Lib, a: Action, before: Option<Item>, x: Option<Item>, y: Option<Item>)
    requires Orderless(a) && Achieves(lib, a, before, x) && Achieves(lib, a, before, y)
    ensures x == y
  {
    hide ImagesIn, UpdateOrder.Compatible, ApplyIn;
    if a.UpdateAct? {
      var o :| IterationOf(o, a.updates) && Result(lib, before, a.key, a.updates, o) == x && x.Some?;
      var p :| IterationOf(p, a.updates) && Result(lib, before, a.key, a.updates, p) == y && y.Some?;
      var item := if before.Some? then before.value else a.key;
      UpdateOrder.CompatibleOrder(lib, item, a.updates, o, p);
      ImagesAfter(lib, item, a.updates, o);
      ImagesAfter(lib, item, a.updates, p);
    }
  }

  /** Whatever order the same actions are listed in, the same store results. */
  lemma AnyActionOrder(h: Hash, lib: Lib, metas: map<string, Meta>, actions: seq<Action>, shuffled: seq<Action>,
                       before: Tables, x: Tables, y: Tables)
    requires forall a :: a in actions <==> a in shuffled
    requires forall a :: a in actions ==> Orderless(a)
    requires AllDone(h, lib, metas, actions, before, x) && AllDone(h, lib, metas, shuffled, before, y)
    ensures x == y
  {
    hide Allows, Achieves, Orderless, RefOf, ItemAt, OneEach;
    forall ref: Ref
      ensures ItemAt(x, ref) == ItemAt(y, ref)
    {
      if a :| a in actions && Some(ref) == RefOf(h, metas, a) {
        Named(h, metas, a);
        AchievesUnique(lib, a, ItemAt(before, ref), ItemAt(x, ref), ItemAt(y, ref));
      }
    }
    SameItems(x, y);
  }

  lemma Named(h: Hash, metas: map<string, Meta>, a: Action)
    requires RefOf(h, metas, a).Some?
    ensures !a.NoAct? && a.table in metas && RefOf(h, metas, a).value.table == a.table
  {
  }

  // ---- replies

  datatype Reason = NoReason | ConditionFailed(item: Option<Item>)

  /** Done answers one item operation, Success a batch or a transaction. */
  datatype Reply =
    | NoTable
    | BadRequest
    | CheckFailed(current: Option<Item>)
    | Canceled(reasons: seq<Reason>)
    | IOError
    | Done(previous: Option<Item>, current: Option<Item>)
    | Success

  /** The cancellation reason of one action, given the item it names. */
  ghost function ReasonOf(lib: Lib, a: Action, current: Option<Item>): Reason {
    if a.NoAct? || !Denies(lib, current, a.cond) then NoReason
    else ConditionFailed(if a.showOld then current else None)
  }

  /** The item an action finds. */
  function Found(h: Hash, metas: map<string, Meta>, ts: Tables, a: Action): Option<Item> {
    var ref := RefOf(h, metas, a);
    if ref.None? then None else ItemAt(ts, ref.value)
  }

  // ---- the writes a transaction has made so far

  /** A write with the snapshot taken before it. */
  datatype Applied = Applied(action: Action, ref: Ref, before: Option<Item>, after: Option<Item>)

  /** The actions that write, in order. */
  function Writing(actions: seq<Action>): seq<Action> {
    if actions == [] then []
    else
      var n := |actions| - 1;
      Writing(actions[..n]) + (if Writes(actions[n]) then [actions[n]] else [])
  }

  lemma {:induction false} InWriting(actions: seq<Action>, a: Action)
    ensures a in Writing(actions) <==> a in actions && Writes(a)
  {
    if actions != [] {
      var n := |actions| - 1;
      InWriting(actions[..n], a);
      assert actions == actions[..n] + [actions[n]];
    }
  }

  /** The writes are the outcomes of these actions, in their order. */
  ghost predicate Performed(h: Hash, lib: Lib, metas: map<string, Meta>, writing: seq<Action>, applied: seq<Applied>) {
    && |applied| == |writing|
    && (forall i :: 0 <= i < |applied| ==> applied[i].action == writing[i])
    && forall x :: x in applied ==> Writes(x.action) && Performs(h, lib, metas, x)
  }

  ghost predicate Performs(h: Hash, lib: Lib, metas: map<string, Meta>, x: Applied) {
    && RefOf(h, metas, x.action) == Some(x.ref)
    && Achieves(lib, x.action, x.before, x.after)
  }

  predicate Placed(ts: Tables, applied: seq<Applied>) {
    forall x :: x in applied ==> x.ref.table in ts
  }

  /** The store after the writes. */
  function Written(ts: Tables, applied: seq<Applied>): Tables
    requires Placed(ts, applied)
    ensures Written(ts, applied).Keys == ts.Keys
  {
    if applied == [] then ts
    else
      var n := |applied| - 1;
      PutAt(Written(ts, applied[..n]), applied[n].ref, applied[n].after)
  }

  /** Each snapshot is what the write replaced. */
  predicate Snapped(ts: Tables, applied: seq<Applied>)
    requires Placed(ts, applied)
  {
    forall i :: 0 <= i < |applied| ==> applied[i].before == ItemAt(Written(ts, applied[..i]), applied[i].ref)
  }

  lemma {:induction false} WrittenElsewhere(ts: Tables, applied: seq<Applied>, ref: Ref)
    requires Placed(ts, applied) && forall x :: x in applied ==> x.ref != ref
    ensures ItemAt(Written(ts, applied), ref) == ItemAt(ts, ref)
  {
    if applied != [] {
      var n := |applied| - 1;
      WrittenElsewhere(ts, applied[..n], ref);
      assert applied[n] in applied;
      PutAtReads(Written(ts, applied[..n]), applied[n].ref, applied[n].after, ref);
    }
  }

  predicate DistinctRefs(applied: seq<Applied>) {
    forall i, j :: 0 <= i < j < |applied| ==> applied[i].ref != applied[j].ref
  }

  /** With distinct items no write covers another. */
  lemma {:induction false} WrittenStays(ts: Tables, applied: seq<Applied>, i: nat)
    requires Placed(ts, applied) && DistinctRefs(applied) && i < |applied|
    ensures ItemAt(Written(ts, applied), applied[i].ref) == applied[i].after
  {
    var n := |applied| - 1;
    PutAtReads(Written(ts, applied[..n]), applied[n].ref, applied[n].after, applied[i].ref);
    if i < n {
      WrittenStays(ts, applied[..n], i);
    }
  }

  lemma WrittenMore(ts: Tables, applied: seq<Applied>, x: Applied)
    requires Placed(ts, applied) && x.ref.table in ts
    ensures Placed(ts, applied + [x])
    ensures Written(ts, applied + [x]) == PutAt(Written(ts, applied), x.ref, x.after)
    ensures Snapped(ts, applied) && x.before == ItemAt(Written(ts, applied), x.ref) ==> Snapped(ts, applied + [x])
  {
    var more := applied + [x];
    assert more[..|applied|] == applied;
    assert forall i :: 0 <= i < |applied| ==> more[..i] == applied[..i];
  }

  /** Taking back the last write. */
  lemma WrittenLess(ts: Tables, applied: seq<Applied>, n: nat)
    requires Placed(ts, applied) && Snapped(ts, applied) && n < |applied|
    ensures Placed(ts, applied[..n]) && Placed(ts, applied[..n + 1])
    ensures forall ref: Ref :: ItemAt(Written(ts, applied[..n]), ref)
              == if ref == applied[n].ref then applied[n].before else ItemAt(Written(ts, applied[..n + 1]), ref)
  {
    assert applied[..n + 1][..n] == applied[..n];
  }

  // ---- what a failed transaction leaves

  /** An action writes this item, and the item is as that action makes it. */
  ghost predicate LeftBy(h: Hash, lib: Lib, metas: map<string, Meta>, actions: seq<Action>, ts: Tables, ts': Tables, ref: Ref) {
    exists a :: a in actions && Writes(a) && RefOf(h, metas, a) == Some(ref) && Achieves(lib, a, ItemAt(ts, ref), ItemAt(ts', ref))
  }

  /** Every item is as it was, but those that are lost, which are as an action left them. */
  ghost predicate OnlyLost(h: Hash, lib: Lib, metas: map<string, Meta>, actions: seq<Action>, ts: Tables, ts': Tables, lost: set<Ref>) {
    && ts'.Keys == ts.Keys
    && (forall ref: Ref :: ref !in lost ==> ItemAt(ts', ref) == ItemAt(ts, ref))
    && (forall ref: Ref :: ref in lost ==> LeftBy(h, lib, metas, actions, ts, ts', ref))
  }

  lemma NothingLost(h: Hash, lib: Lib, metas: map<string, Meta>, actions: seq<Action>, ts: Tables)
    ensures OnlyLost(h, lib, metas, actions, ts, ts, {})
  {
  }

  /** The restore of this item failed: it still holds what was written. */
  predicate StillWritten(applied: seq<Applied>, n: nat, ts: Tables, ref: Ref) {
    exists i :: n <= i < |applied| && applied[i].ref == ref && ItemAt(ts, ref) == applied[i].after
  }

  /** The write taken back next is the last one on its item. */
  lemma LastWritten(ts: Tables, applied: seq<Applied>, n: nat)
    requires Placed(ts, applied) && DistinctRefs(applied) && n < |applied|
    ensures Placed(ts, applied[..n + 1]) && ItemAt(Written(ts, applied[..n + 1]), applied[n].ref) == applied[n].after
  {
    hide ItemAt, Written;
    WrittenStays(ts, applied[..n + 1], n);
  }

  lemma JustLost(applied: seq<Applied>, n: nat, ts: Tables)
    requires n < |applied| && ItemAt(ts, applied[n].ref) == applied[n].after
    ensures StillWritten(applied, n, ts, applied[n].ref)
  {
  }

  /** An item lost before is another one than the n-th, and stays lost. */
  lemma StaysLost(applied: seq<Applied>, n: nat, ts: Tables, ts': Tables, ref: Ref)
    requires DistinctRefs(applied) && n < |applied| && StillWritten(applied, n + 1, ts, ref)
    requires forall other: Ref :: other != applied[n].ref ==> ItemAt(ts', other) == ItemAt(ts, other)
    ensures ref != applied[n].ref && StillWritten(applied, n, ts', ref)
  {
    hide ItemAt;
  }

  /** The writes were those of the actions, so what is lost is what an action left. */
  lemma LostLeft(h: Hash, lib: Lib, metas: map<string, Meta>, actions: seq<Action>, all: seq<Action>, applied: seq<Applied>,
                 ts: Tables, ts': Tables, lost: set<Ref>)
    requires Progress(h, lib, metas, actions, applied, ts) && (forall a :: a in actions ==> a in all)
    requires ts'.Keys == ts.Keys && forall ref: Ref :: ref !in lost ==> ItemAt(ts', ref) == ItemAt(ts, ref)
    requires forall ref: Ref :: ref in lost ==> StillWritten(applied, 0, ts', ref)
    ensures OnlyLost(h, lib, metas, all, ts, ts', lost)
  {
    hide ItemAt, Achieves, RefOf, Written, Snapped;
    forall ref: Ref | ref in lost
      ensures LeftBy(h, lib, metas, all, ts, ts', ref)
    {
      var i :| 0 <= i < |applied| && applied[i].ref == ref && ItemAt(ts', ref) == applied[i].after;
      assert applied[i] in applied && Performs(h, lib, metas, applied[i]);
      InWriting(actions, applied[i].action);
      FirstWrite(ts, applied, i);
      assert applied[i].action in all;
    }
  }

  /** The tables whose contents are not the same. */
  function Differing(ts: Tables, ts': Tables): set<string> {
    set t | t in ts && t in ts' && ts[t] != ts'[t]
  }

  // ---- filing and reporting

  function ChangeOf(x: Applied): Change {
    Change(x.ref.key, x.before, x.after, x.before)
  }

  predicate IsChange(x: Applied) { x.before.Some? || x.after.Some? }

  /** The changes the writes amount to, noted for the streaming tables. Removing what
      is not there is no change. */
  function NotedAll(metas: map<string, Meta>, books: map<string, Book>, applied: seq<Applied>): map<string, Book>
    requires forall x :: x in applied ==> x.ref.table in metas
  {
    if applied == [] then books
    else
      var n := |applied| - 1;
      var x, before := applied[n], NotedAll(metas, books, applied[..n]);
      if IsChange(x) then Noted(metas, before, x.ref.table, ChangeOf(x)) else before
  }

  /** The tables that get an item which is not under its own key. */
  function StrayedAll(h: Hash, metas: map<string, Meta>, astray: set<string>, applied: seq<Applied>): set<string>
    requires forall x :: x in applied ==> x.ref.table in metas
  {
    if applied == [] then astray
    else
      var n := |applied| - 1;
      var x, before := applied[n], StrayedAll(h, metas, astray, applied[..n]);
      if IsChange(x) then Strayed(h, metas, before, x.ref.table, ChangeOf(x)) else before
  }

  // ---- the writes of distinct items add up to the transaction

  ghost predicate AllPass(h: Hash, lib: Lib, metas: map<string, Meta>, actions: seq<Action>, ts: Tables) {
    forall a :: a in actions && !a.NoAct? ==> Allows(lib, Found(h, metas, ts, a), a.cond)
  }

  lemma PerformedDistinct(h: Hash, lib: Lib, metas: map<string, Meta>, actions: seq<Action>, applied: seq<Applied>,
                          a: Action)
    requires OneEach(h, metas, actions + [a]) && Performed(h, lib, metas, Writing(actions), applied) && !a.NoAct?
    ensures forall x :: x in applied ==> Some(x.ref) != RefOf(h, metas, a)
  {
    hide RefOf, Achieves;
    forall x | x in applied
      ensures Some(x.ref) != RefOf(h, metas, a)
    {
      assert Performs(h, lib, metas, x);
      InWriting(actions, x.action);
      var i :| 0 <= i < |actions| && actions[i] == x.action;
      assert (actions + [a])[i] == x.action && (actions + [a])[|actions|] == a;
    }
  }

  lemma PerformedDone(h: Hash, lib: Lib, metas: map<string, Meta>, actions: seq<Action>, applied: seq<Applied>, ts: Tables)
    requires OneEach(h, metas, actions) && AllPass(h, lib, metas, actions, ts)
    requires Performed(h, lib, metas, Writing(actions), applied)
    requires Placed(ts, applied) && Snapped(ts, applied) && DistinctRefs(applied)
    ensures AllDone(h, lib, metas, actions, ts, Written(ts, applied))
  {
    hide RefOf, Achieves, Allows, Written, ItemAt, Snapped;
    var after := Written(ts, applied);
    forall a | a in actions && !a.NoAct?
      ensures Allows(lib, ItemAt(ts, RefOf(h, metas, a).value), a.cond)
      ensures Achieves(lib, a, ItemAt(ts, RefOf(h, metas, a).value), ItemAt(after, RefOf(h, metas, a).value))
    {
      var ref := RefOf(h, metas, a).value;
      assert Found(h, metas, ts, a) == ItemAt(ts, ref);
      if Writes(a) {
        InWriting(actions, a);
        var i :| 0 <= i < |applied| && Writing(actions)[i] == a;
        assert applied[i] in applied && Performs(h, lib, metas, applied[i]);
        WrittenStays(ts, applied, i);
        FirstWrite(ts, applied, i);
      } else {
        CheckedOnly(h, lib, metas, actions, applied, a);
        WrittenElsewhere(ts, applied, ref);
        CheckAchieves(lib, a, ItemAt(ts, ref));
      }
    }
    forall ref: Ref | forall a :: a in actions ==> Some(ref) != RefOf(h, metas, a)
      ensures ItemAt(after, ref) == ItemAt(ts, ref)
    {
      forall x | x in applied
        ensures x.ref != ref
      {
        assert Performs(h, lib, metas, x);
        InWriting(actions, x.action);
      }
      WrittenElsewhere(ts, applied, ref);
    }
  }

  /** An item that is only checked is not written. */
  lemma CheckedOnly(h: Hash, lib: Lib, metas: map<string, Meta>, actions: seq<Action>, applied: seq<Applied>, a: Action)
    requires OneEach(h, metas, actions) && Performed(h, lib, metas, Writing(actions), applied)
    requires a in actions && a.CheckAct?
    ensures forall x :: x in applied ==> Some(x.ref) != RefOf(h, metas, a)
  {
    hide RefOf, Achieves;
    var j :| 0 <= j < |actions| && actions[j] == a;
    forall x | x in applied
      ensures Some(x.ref) != RefOf(h, metas, a)
    {
      assert Performs(h, lib, metas, x);
      InWriting(actions, x.action);
      var i :| 0 <= i < |actions| && actions[i] == x.action;
      assert i < j || j < i;
    }
  }

  lemma CheckAchieves(lib: Lib, a: Action, item: Option<Item>)
    requires a.CheckAct?
    ensures Achieves(lib, a, item, item)
  {
  }

  /** With distinct items each snapshot is of the store at the start. */
  lemma FirstWrite(ts: Tables, applied: seq<Applied>, i: nat)
    requires Placed(ts, applied) && Snapped(ts, applied) && DistinctRefs(applied) && i < |applied|
    ensures applied[i].before == ItemAt(ts, applied[i].ref)
  {
    hide ItemAt, Written;
    forall x | x in applied[..i]
      ensures x.ref != applied[i].ref
    {
      var j :| 0 <= j < i && applied[j] == x;
    }
    WrittenElsewhere(ts, applied[..i], applied[i].ref);
  }

  // ---- phase 2, one action at a time

  /** The writes made so far are the outcomes of the actions so far: distinct items,
      each snapshot what the write replaced. */
  ghost predicate Progress(h: Hash, lib: Lib, metas: map<string, Meta>, actions: seq<Action>, applied: seq<Applied>, ts: Tables) {
    && metas.Keys == ts.Keys
    && Placed(ts, applied) && Snapped(ts, applied) && DistinctRefs(applied)
    && Performed(h, lib, metas, Writing(actions), applied)
  }

  lemma NothingWritten(ts: Tables, none: seq<Applied>)
    requires none == []
    ensures Placed(ts, none) && Written(ts, none) == ts
  {
  }

  lemma NoProgress(h: Hash, lib: Lib, metas: map<string, Meta>, ts: Tables)
    requires metas.Keys == ts.Keys
    ensures Progress(h, lib, metas, [], [], ts)
  {
  }

  lemma ProgressPlaced(h: Hash, lib: Lib, metas: map<string, Meta>, actions: seq<Action>, applied: seq<Applied>, ts: Tables)
    requires Progress(h, lib, metas, actions, applied, ts)
    ensures Placed(ts, applied) && metas.Keys == ts.Keys
  {
  }

  lemma ProgressSnapped(h: Hash, lib: Lib, metas: map<string, Meta>, actions: seq<Action>, applied: seq<Applied>, ts: Tables)
    requires Progress(h, lib, metas, actions, applied, ts)
    ensures Placed(ts, applied) && Snapped(ts, applied) && DistinctRefs(applied)
  {
  }

  lemma ProgressSame(h: Hash, lib: Lib, metas: map<string, Meta>, actions: seq<Action>, applied: seq<Applied>, ts: Tables, a: Action)
    requires Progress(h, lib, metas, actions, applied, ts) && !Writes(a)
    ensures Progress(h, lib, metas, actions + [a], applied, ts)
  {
    hide Snapped, DistinctRefs;
    assert (actions + [a])[..|actions|] == actions;
  }

  lemma ProgressMore(h: Hash, lib: Lib, metas: map<string, Meta>, actions: seq<Action>, applied: seq<Applied>, ts: Tables, x: Applied)
    requires Progress(h, lib, metas, actions, applied, ts) && OneEach(h, metas, actions + [x.action])
    requires Writes(x.action) && Performs(h, lib, metas, x)
    requires x.before == ItemAt(Written(ts, applied), x.ref)
    ensures Progress(h, lib, metas, actions + [x.action], applied + [x], ts)
    ensures Written(ts, applied + [x]) == PutAt(Written(ts, applied), x.ref, x.after)
  {
    hide Snapped, Written, Performs, OneEach;
    assert (actions + [x.action])[..|actions|] == actions;
    RefPerformed(h, lib, metas, x);
    Named(h, metas, x.action);
    WrittenMore(ts, applied, x);
    PerformedDistinct(h, lib, metas, actions, applied, x.action);
  }

  lemma RefPerformed(h: Hash, lib: Lib, metas: map<string, Meta>, x: Applied)
    requires Performs(h, lib, metas, x)
    ensures RefOf(h, metas, x.action) == Some(x.ref)
  {
  }

  /** The item of the next action has not been written yet. */
  lemma StillInitial(h: Hash, lib: Lib, metas: map<string, Meta>, actions: seq<Action>, applied: seq<Applied>, ts: Tables,
                     a: Action, ref: Ref)
    requires Progress(h, lib, metas, actions, applied, ts) && OneEach(h, metas, actions + [a])
    requires RefOf(h, metas, a) == Some(ref)
    ensures Placed(ts, applied) && ItemAt(Written(ts, applied), ref) == Found(h, metas, ts, a)
  {
    hide RefOf, Snapped, Performed, OneEach, Written, ItemAt;
    Named(h, metas, a);
    PerformedDistinct(h, lib, metas, actions, applied, a);
    WrittenElsewhere(ts, applied, ref);
  }

  lemma HasRef(h: Hash, metas: map<string, Meta>, actions: seq<Action>, i: nat)
    requires OneEach(h, metas, actions) && i < |actions| && !actions[i].NoAct?
    ensures RefOf(h, metas, actions[i]).Some?
  {
  }

  lemma OneEachPrefix(h: Hash, metas: map<string, Meta>, actions: seq<Action>, n: nat)
    requires OneEach(h, metas, actions) && n <= |actions|
    ensures OneEach(h, metas, actions[..n])
  {
    hide RefOf;
  }

  lemma ProgressDone(h: Hash, lib: Lib, metas: map<string, Meta>, actions: seq<Action>, applied: seq<Applied>, ts: Tables)
    requires Progress(h, lib, metas, actions, applied, ts)
    requires OneEach(h, metas, actions) && AllPass(h, lib, metas, actions, ts)
    ensures Placed(ts, applied) && AllDone(h, lib, metas, actions, ts, Written(ts, applied))
  {
    hide AllDone, AllPass, OneEach, Snapped, Performed;
    PerformedDone(h, lib, metas, actions, applied, ts);
  }

  /** The i-th write as the next change to report, before the later ones. */
  lemma NextChange(h: Hash, lib: Lib, metas: map<string, Meta>, actions: seq<Action>, applied: seq<Applied>, ts: Tables, i: nat)
    requires Progress(h, lib, metas, actions, applied, ts) && i < |applied|
    ensures applied[i].ref.table in metas
    ensures Placed(ts, applied) && ItemAt(Written(ts, applied), applied[i].ref) == applied[i].after
    ensures NextStep(ts, applied, i)
    ensures Kind(applied[i])
  {
    hide Written, KeyOf, RefOf, PutAt, ItemAt, Achieves, Kind, NextStep;
    assert applied[i] in applied && Performs(h, lib, metas, applied[i]);
    AchievedKind(lib, applied[i]);
    WrittenStays(ts, applied, i);
    StepFrom(ts, applied, i);
  }

  /** A put stores its item and a delete stores none. */
  predicate Kind(x: Applied) {
    && (x.action.PutAct? ==> x.after == Some(x.action.key))
    && (x.action.DeleteAct? ==> x.after.None?)
    && Writes(x.action)
  }

  lemma AchievedKind(lib: Lib, x: Applied)
    requires Writes(x.action) && Achieves(lib, x.action, x.before, x.after)
    ensures Kind(x)
  {
  }

  /** The i-th write starts from what the earlier ones left. */
  predicate NextStep(ts: Tables, applied: seq<Applied>, i: nat)
    requires i < |applied|
  {
    var x := applied[i];
    && x.ref.table in ts && Placed(ts, applied[..i]) && Placed(ts, applied[..i + 1])
    && x.before == ItemAt(Written(ts, applied[..i]), x.ref)
    && Written(ts, applied[..i + 1]) == PutAt(Written(ts, applied[..i]), x.ref, x.after)
    && (x.before.None? && x.after.None? ==> Written(ts, applied[..i + 1]) == Written(ts, applied[..i]))
  }

  lemma StepFrom(ts: Tables, applied: seq<Applied>, i: nat)
    requires Placed(ts, applied) && Snapped(ts, applied) && i < |applied|
    ensures NextStep(ts, applied, i)
  {
    hide Written, PutAt, ItemAt;
    var x := applied[i];
    assert applied[..i + 1] == applied[..i] + [x] && x in applied;
    WrittenMore(ts, applied[..i], x);
    if x.before.None? && x.after.None? {
      PutNothing(Written(ts, applied[..i]), x.ref);
    }
  }

  lemma PutNothing(ts: Tables, ref: Ref)
    requires ref.table in ts && ItemAt(ts, ref).None?
    ensures PutAt(ts, ref, None) == ts
  {
    assert ts[ref.table] - {ref.key} == ts[ref.table];
  }
}
