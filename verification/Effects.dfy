/** What each entry of an update does to its attribute, told by what is there afterwards:
    sums, the elements of sets, lists end to end, values at paths. */
module Effects {
  import opened Values
  import opened Parser
  import opened DocPath
  import opened Updates

  /** The library's addition gives the text of the sum. */
  ghost predicate Sums(lib: Lib) {
    && lib.number("0") == 0.0
    && forall x, y :: lib.sum(x, y).Some? ==> lib.number(lib.sum(x, y).value) == lib.number(x) + lib.number(y)
  }

  // ---- right-hand sides

  ghost predicate ArgIs(item: Item, a: Arg, v: Value) {
    match a
    case Literal(x) => v == x
    case AttrRef(segs) => GetPath(item, segs) == Some(v)
    case OrElse(segs, fallback) => if GetPath(item, segs).Some? then GetPath(item, segs) == Some(v) else v == fallback
  }

  /** The lists x and y, end to end. */
  predicate EndToEnd(x: seq<Value>, y: seq<Value>, z: seq<Value>) {
    && |z| == |x| + |y|
    && (forall i :: 0 <= i < |x| ==> z[i] == x[i])
    && (forall i :: 0 <= i < |y| ==> z[|x| + i] == y[i])
  }

  /** v is what the right-hand side stands for on the item. */
  ghost predicate RhsIs(item: Item, r: Rhs, v: Value) {
    match r
    case Plain(x) => v == x
    case IfNotExists(segs, fallback) => if GetPath(item, segs).Some? then GetPath(item, segs) == Some(v) else v == fallback
    case ListAppend(left, right) =>
      exists x, y :: ArgIs(item, left, L(x)) && ArgIs(item, right, L(y)) && v.L? && EndToEnd(x, y, v.list)
  }

  lemma RhsMeans(item: Item, r: Rhs)
    ensures RhsValue(item, r).Some? ==> RhsIs(item, r, RhsValue(item, r).value)
    ensures RhsValue(item, r).None? ==> forall v :: !RhsIs(item, r, v)
  {
    hide GetAt;
    if r.ListAppend? {
      var x, y := ArgValue(item, r.left), ArgValue(item, r.right);
      if x.Some? && x.value.L? && y.Some? && y.value.L? {
        assert ArgIs(item, r.left, L(x.value.list)) && ArgIs(item, r.right, L(y.value.list));
        assert EndToEnd(x.value.list, y.value.list, RhsValue(item, r).value.list);
      }
    }
  }

  // ---- sets

  function Elems(v: Option<Value>): seq<string> {
    if v.Some? && (v.value.SS? || v.value.NS? || v.value.BS?) then v.value.elems else []
  }

  predicate IsSet(v: Value) { v.SS? || v.NS? || v.BS? }

  predicate SameKind(v: Value, w: Value) {
    (v.SS? && w.SS?) || (v.NS? && w.NS?) || (v.BS? && w.BS?)
  }

  /** A set of the delta's kind with the elements of both, each once. */
  ghost predicate Joined(before: Option<Value>, delta: Value, after: Option<Value>) {
    && after.Some? && SameKind(after.value, delta) && NoDuplicates(Elems(after))
    && forall x :: x in Elems(after) <==> x in Elems(before) || x in Elems(Some(delta))
  }

  /** What is left of the old elements; with none left the attribute is gone. */
  ghost predicate Reduced(before: Option<Value>, delta: Value, after: Option<Value>) {
    && (forall x :: x in Elems(after) <==> x in Elems(before) && x !in Elems(Some(delta)))
    && (after.Some? <==> exists x :: x in Elems(before) && x !in Elems(Some(delta)))
    && (after.Some? ==> SameKind(after.value, delta))
  }

  // ---- entries

  /** The entry cannot be applied to the item. */
  ghost predicate Refused(lib: Lib, before: Item, key: string, op: Op)
    requires OpParsed(op)
  {
    var v := Lookup(before, Target(key, op));
    match op
    case Remove => false
    case Set(rhs) => forall x :: !RhsIs(before, rhs, x)
    case Add(d) =>
      if d.N? then (v.Some? && !v.value.N?) || lib.sum(if v.Some? then v.value.num else "0", d.num).None?
      else !IsSet(d) || (v.Some? && !SameKind(v.value, d))
    case Delete(d) => v.Some? && !SameKind(v.value, d)
    case NestedSet(segs, rhs) => (forall x :: !RhsIs(before, rhs, x)) || v.None? || !ParentFits(v.value, segs[1..])
    case NestedRemove(_) => false
  }

  /** What the entry leaves at its attribute. */
  ghost predicate Effected(lib: Lib, before: Item, after: Item, key: string, op: Op)
    requires OpParsed(op)
  {
    var v, w := Lookup(before, Target(key, op)), Lookup(after, Target(key, op));
    match op
    case Remove => w.None?
    case Set(rhs) => w.Some? && RhsIs(before, rhs, w.value)
    case Add(d) =>
      if d.N? then
        && w.Some? && w.value.N?
        && (Sums(lib) ==> lib.number(w.value.num) == lib.number(d.num) + (if v.Some? && v.value.N? then lib.number(v.value.num) else 0.0))
      else Joined(v, d, w)
    case Delete(d) => if v.None? then w.None? else Reduced(v, d, w)
    case NestedSet(segs, rhs) => v.Some? && w.Some? && Planted(before, rhs, v.value, segs[1..], w.value)
    case NestedRemove(segs) => if v.None? then w.None? else w.Some? && Uprooted(v.value, segs[1..], w.value)
  }

  /** The value stands where the path lands, and what lies apart from there is as it was. */
  ghost predicate Planted(before: Item, rhs: Rhs, v: Value, segs: seq<Seg>, w: Value)
    requires segs != []
  {
    && (exists x :: RhsIs(before, rhs, x) && GetAt(w, Landed(v, segs)) == Some(x))
    && forall q :: Apart(Landed(v, segs), q) ==> GetAt(w, q) == GetAt(v, q)
  }

  /** What the path led to is gone, and everything apart from it is where it has moved to. */
  ghost predicate Uprooted(v: Value, segs: seq<Seg>, w: Value)
    requires segs != []
  {
    if GetAt(v, segs).None? then w == v
    else
      && (segs[|segs| - 1].Attr? ==> GetAt(w, segs).None?)
      && forall q :: Apart(segs, q) ==> GetAt(w, Moved(segs, q)) == GetAt(v, q)
  }

  lemma AddMeans(lib: Lib, v: Option<Value>, d: Value)
    ensures AddTo(lib, v, d).Rejected? <==>
              if d.N? then (v.Some? && !v.value.N?) || lib.sum(if v.Some? then v.value.num else "0", d.num).None?
              else !IsSet(d) || (v.Some? && !SameKind(v.value, d))
    ensures !AddTo(lib, v, d).Rejected? && IsSet(d) ==> Joined(v, d, EffectValue(AddTo(lib, v, d)))
    ensures !AddTo(lib, v, d).Rejected? && d.N? && Sums(lib) ==>
              var w := EffectValue(AddTo(lib, v, d));
              w.Some? && w.value.N? && lib.number(w.value.num) == lib.number(d.num) + (if v.Some? then lib.number(v.value.num) else 0.0)
  {
    hide Dedup, NoDuplicates;
    if IsSet(d) {
      DedupKeeps(d.elems);
      if v.Some? && SameKind(v.value, d) {
        DedupKeeps(v.value.elems + d.elems);
      }
    }
  }

  lemma DeleteMeans(v: Option<Value>, d: Value)
    ensures DeleteFrom(v, d).Rejected? <==> v.Some? && !SameKind(v.value, d)
    ensures !DeleteFrom(v, d).Rejected? ==>
              if v.None? then EffectValue(DeleteFrom(v, d)).None? else Reduced(v, d, EffectValue(DeleteFrom(v, d)))
  {
    hide Without;
    if v.Some? && SameKind(v.value, d) {
      WithoutKeeps(v.value.elems, d.elems);
      var rest := Without(v.value.elems, d.elems);
      assert rest != [] ==> rest[0] in rest;
      assert Elems(v) == v.value.elems && Elems(Some(d)) == d.elems;
      assert Elems(EffectValue(DeleteFrom(v, d))) == rest;
    }
  }

  lemma PlantMeans(before: Item, rhs: Rhs, v: Value, segs: seq<Seg>, x: Value)
    requires segs != [] && RhsIs(before, rhs, x)
    ensures SetAt(v, segs, x).Some? <==> ParentFits(v, segs)
    ensures SetAt(v, segs, x).Some? ==> Planted(before, rhs, v, segs, SetAt(v, segs, x).value)
  {
    hide RhsIs, Landed, ParentFits, Apart;
    SetFailsExactly(v, segs, x);
    if SetAt(v, segs, x).Some? {
      SetThenGet(v, segs, x);
      forall q | Apart(Landed(v, segs), q)
        ensures GetAt(SetAt(v, segs, x).value, q) == GetAt(v, q)
      {
        SetLeavesOthers(v, segs, x, q);
      }
    }
  }

  lemma UprootMeans(v: Value, segs: seq<Seg>)
    requires segs != []
    ensures Uprooted(v, segs, RemoveAt(v, segs))
  {
    hide Apart, Moved, RemoveAt;
    if GetAt(v, segs).None? {
      RemoveMissing(v, segs);
    } else {
      RemovedIsGone(v, segs);
      forall q | Apart(segs, q)
        ensures GetAt(RemoveAt(v, segs), Moved(segs, q)) == GetAt(v, q)
      {
        RemoveKeepsOthers(v, segs, q);
      }
    }
  }

  /** One entry met by the item as it was. */
  lemma EntryMeans(lib: Lib, item: Item, key: string, op: Op)
    requires OpParsed(op)
    ensures EffectOf(lib, item, key, op).Rejected? <==> Refused(lib, item, key, op)
    ensures forall after: Item ::
              !EffectOf(lib, item, key, op).Rejected? && Lookup(after, Target(key, op)) == EffectValue(EffectOf(lib, item, key, op)) ==>
                Effected(lib, item, after, key, op)
  {
    hide AddTo, DeleteFrom, RhsValue, RhsIs, Joined, Reduced, Planted, Uprooted, ParentFits, SetAt, RemoveAt, Sums;
    var v := Lookup(item, Target(key, op));
    match op {
      case Remove =>
      case Set(rhs) => RhsMeans(item, rhs);
      case Add(d) => AddMeans(lib, v, d); AddKinds(lib, v, d);
      case Delete(d) => DeleteMeans(v, d);
      case NestedSet(segs, rhs) =>
        RhsMeans(item, rhs);
        if RhsValue(item, rhs).Some? && v.Some? {
          PlantMeans(item, rhs, v.value, segs[1..], RhsValue(item, rhs).value);
        }
      case NestedRemove(segs) =>
        if v.Some? {
          UprootMeans(v.value, segs[1..]);
        }
    }
  }

  lemma AddKinds(lib: Lib, v: Option<Value>, d: Value)
    ensures !AddTo(lib, v, d).Rejected? ==>
              if d.N? then EffectValue(AddTo(lib, v, d)).Some? && EffectValue(AddTo(lib, v, d)).value.N? && (v.Some? ==> v.value.N?)
              else IsSet(d)
  {
  }

  // ---- in an update

  /** No other entry writes what this one depends on. */
  predicate Undisturbed(updates: Updates, k: string)
    requires k in updates
  {
    forall j :: j in updates && j != k ==> Target(j, updates[j]) !in Scope(k, updates[k])
  }

  lemma {:induction false} ScopeKept(lib: Lib, item: Item, updates: Updates, order: seq<string>, k: string)
    requires k in updates && Undisturbed(updates, k) && k !in order && forall j :: j in order ==> j in updates
    requires ApplyIn(lib, item, updates, order).Some?
    ensures forall a :: a in Scope(k, updates[k]) ==> Lookup(ApplyIn(lib, item, updates, order).value, a) == Lookup(item, a)
  {
    hide EffectOf, Scope;
    if order != [] {
      var init, j := order[..|order| - 1], order[|order| - 1];
      assert order == init + [j] && j in order;
      ScopeKept(lib, item, updates, init, k);
    }
  }

  /** In every order the entry leaves what it leaves of the item as it was. */
  lemma {:induction false} EntryHolds(lib: Lib, item: Item, updates: Updates, order: seq<string>, k: string)
    requires NoDuplicates(order) && (forall j :: j in order ==> j in updates) && k in order && Undisturbed(updates, k)
    requires ApplyIn(lib, item, updates, order).Some?
    ensures !Refused(lib, item, k, updates[k]) && Effected(lib, item, ApplyIn(lib, item, updates, order).value, k, updates[k])
  {
    hide Effected, Refused, EffectOf;
    EntryStays(lib, item, updates, order, k);
    EntryMeans(lib, item, k, updates[k]);
  }

  lemma {:induction false} EntryStays(lib: Lib, item: Item, updates: Updates, order: seq<string>, k: string)
    requires NoDuplicates(order) && (forall j :: j in order ==> j in updates) && k in order && Undisturbed(updates, k)
    requires ApplyIn(lib, item, updates, order).Some?
    ensures var e := EffectOf(lib, item, k, updates[k]);
            !e.Rejected? && Lookup(ApplyIn(lib, item, updates, order).value, Target(k, updates[k])) == EffectValue(e)
  {
    hide EffectOf;
    var init, j := order[..|order| - 1], order[|order| - 1];
    assert order == init + [j];
    var mid := ApplyIn(lib, item, updates, init).value;
    assert Target(k, updates[k]) in Scope(k, updates[k]);
    if j == k {
      assert k !in init;
      ScopeKept(lib, item, updates, init, k);
      EffectLocal(lib, mid, item, k, updates[k]);
    } else {
      EntryStays(lib, item, updates, init, k);
    }
  }

  /** An update that is carried out has done what each of its undisturbed entries says. */
  ghost predicate AllEffected(lib: Lib, before: Item, after: Item, updates: Updates) {
    forall k :: k in updates && Undisturbed(updates, k) ==>
      !Refused(lib, before, k, updates[k]) && Effected(lib, before, after, k, updates[k])
  }

  lemma UpdateMeans(lib: Lib, item: Item, updates: Updates, order: seq<string>)
    requires IterationOf(order, updates) && ImagesIn(lib, item, updates, order).Some?
    ensures AllEffected(lib, item, ImagesIn(lib, item, updates, order).value.after, updates)
  {
    hide Effected, Refused, Undisturbed, ApplyIn, ImagesIn;
    ImagesAfter(lib, item, updates, order);
    forall k | k in updates && Undisturbed(updates, k)
      ensures !Refused(lib, item, k, updates[k]) && Effected(lib, item, ImagesIn(lib, item, updates, order).value.after, k, updates[k])
    {
      EntryHolds(lib, item, updates, order, k);
    }
  }

  /** If no entry depends on another, the update is rejected only if one of those met so
      far is refused, and with all met exactly then. */
  lemma UpdateRefused(lib: Lib, item: Item, updates: Updates, order: seq<string>)
    requires Independent(updates) && NoDuplicates(order) && forall k :: k in order ==> k in updates
    ensures ImagesIn(lib, item, updates, order).None? <==> exists k :: k in order && Refused(lib, item, k, updates[k])
  {
    hide Refused, ApplyIn, ImagesIn, EffectOf;
    ImagesAfter(lib, item, updates, order);
    ApplyIsParallel(lib, item, updates, order);
    forall k | k in updates
      ensures First(lib, item, updates, k).Rejected? <==> Refused(lib, item, k, updates[k])
    {
      EntryMeans(lib, item, k, updates[k]);
    }
  }

  /** Some entry of the update is refused. */
  ghost predicate SomeRefused(lib: Lib, item: Item, updates: Updates) {
    exists k :: k in updates && Refused(lib, item, k, updates[k])
  }

  lemma RefusedFor(lib: Lib, item: Item, updates: Updates, order: seq<string>)
    requires NoDuplicates(order) && (forall k :: k in order ==> k in updates) && ImagesIn(lib, item, updates, order).None?
    ensures Independent(updates) ==> SomeRefused(lib, item, updates)
  {
    hide Refused, ImagesIn, Independent;
    if Independent(updates) {
      UpdateRefused(lib, item, updates, order);
    }
  }
}
