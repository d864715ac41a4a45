/** The operations of an update expression, applied in the order Go happens to
    iterate a map in, and when that order cannot be observed. */
module Updates {
  import opened Values
  import opened Parser
  import opened DocPath

  /** An argument of list_append. */
  datatype Arg = Literal(val: Value) | AttrRef(segs: seq<Seg>) | OrElse(segs: seq<Seg>, fallback: Value)

  /** The right-hand side of SET. */
  datatype Rhs =
    | Plain(val: Value)
    | IfNotExists(segs: seq<Seg>, fallback: Value)
    | ListAppend(left: Arg, right: Arg)

  datatype Op =
    | Remove
    | Set(rhs: Rhs)
    | Add(delta: Value)
    | Delete(delta: Value)
    | NestedSet(segs: seq<Seg>, rhs: Rhs)
    | NestedRemove(segs: seq<Seg>)

  /** Parsed paths have at least one step, the first one an attribute, and nested ones at least two. */
  predicate PathParsed(segs: seq<Seg>) { |segs| > 0 && segs[0].Attr? }

  predicate ArgParsed(a: Arg) { a.Literal? || PathParsed(a.segs) }

  predicate RhsParsed(r: Rhs) {
    match r
    case Plain(_) => true
    case IfNotExists(segs, _) => PathParsed(segs)
    case ListAppend(l, r) => ArgParsed(l) && ArgParsed(r)
  }

  predicate OpParsed(op: Op) {
    match op
    case Set(rhs) => RhsParsed(rhs)
    case NestedSet(segs, rhs) => PathParsed(segs) && |segs| > 1 && RhsParsed(rhs)
    case NestedRemove(segs) => PathParsed(segs) && |segs| > 1
    case _ => true
  }

  type Updates = m: map<string, Op> | forall k :: k in m ==> OpParsed(m[k]) witness map[]

  // ---- set arithmetic

  /** First occurrences, in order. */
  function Dedup(s: seq<string>): seq<string> {
    if s == [] then []
    else
      var init, last := Dedup(s[..|s| - 1]), s[|s| - 1];
      if last in init then init else init + [last]
  }

  predicate NoDuplicates(s: seq<string>) {
    forall i, j :: 0 <= i < j < |s| ==> s[i] != s[j]
  }

  lemma {:induction false} DedupKeeps(s: seq<string>)
    ensures NoDuplicates(Dedup(s))
    ensures forall x :: x in Dedup(s) <==> x in s
  {
    if s != [] {
      DedupKeeps(s[..|s| - 1]);
      assert s == s[..|s| - 1] + [s[|s| - 1]];
    }
  }

  lemma DedupSnoc(s: seq<string>, x: string)
    ensures Dedup(s + [x]) == if x in Dedup(s) then Dedup(s) else Dedup(s) + [x]
  {
    assert (s + [x])[..|s|] == s;
  }

  method SetUnion(a: seq<string>, b: seq<string>) returns (result: seq<string>)
    ensures result == Dedup(a + b)
  {
    result := [];
    var seen: set<string> := {};
    assert Dedup(a[..0]) == [];
    hide Dedup;
    for i := 0 to |a|
      invariant result == Dedup(a[..i])
      invariant forall x :: x in seen <==> x in result
    {
      assert a[..i + 1] == a[..i] + [a[i]];
      DedupSnoc(a[..i], a[i]);
      if a[i] !in seen {
        seen := seen + {a[i]};
        result := result + [a[i]];
      }
    }
    assert a[..|a|] == a && a + b[..0] == a;
    for i := 0 to |b|
      invariant result == Dedup(a + b[..i])
      invariant forall x :: x in seen <==> x in result
    {
      assert a + b[..i + 1] == (a + b[..i]) + [b[i]];
      DedupSnoc(a + b[..i], b[i]);
      if b[i] !in seen {
        seen := seen + {b[i]};
        result := result + [b[i]];
      }
    }
    assert b[..|b|] == b;
  }

  function Without(a: seq<string>, b: seq<string>): seq<string> {
    if a == [] then []
    else Without(a[..|a| - 1], b) + (if a[|a| - 1] in b then [] else [a[|a| - 1]])
  }

  lemma {:induction false} WithoutKeeps(a: seq<string>, b: seq<string>)
    ensures forall x :: x in Without(a, b) <==> x in a && x !in b
  {
    if a != [] {
      WithoutKeeps(a[..|a| - 1], b);
      assert a == a[..|a| - 1] + [a[|a| - 1]];
    }
  }

  method SetDifference(a: seq<string>, b: seq<string>) returns (result: seq<string>)
    ensures result == Without(a, b)
  {
    var remove: set<string> := {};
    for i := 0 to |b|
      invariant remove == set x | x in b[..i]
    {
      remove := remove + {b[i]};
    }
    assert b[..|b|] == b;
    result := [];
    assert a[..0] == [];
    for i := 0 to |a|
      invariant result == Without(a[..i], b)
    {
      assert a[..i + 1] == a[..i] + [a[i]];
      if a[i] !in remove {
        result := result + [a[i]];
      }
    }
    assert a[..|a|] == a;
  }

  // ---- one operation

  /** The attribute's new value: a value, no attribute, or a rejected update. */
  datatype Effect = NewValue(value: Value) | Gone | Rejected

  /** `applyAddOp`. */
  function AddTo(lib: Lib, current: Option<Value>, delta: Value): Effect {
    match delta
    case N(d) =>
      if current.Some? && !current.value.N? then Rejected
      else
        var sum := lib.sum(if current.None? then "0" else current.value.num, d);
        if sum.None? then Rejected else NewValue(N(sum.value))
    case SS(d) =>
      if current.None? then NewValue(SS(Dedup(d)))
      else if current.value.SS? then NewValue(SS(Dedup(current.value.elems + d))) else Rejected
    case NS(d) =>
      if current.None? then NewValue(NS(Dedup(d)))
      else if current.value.NS? then NewValue(NS(Dedup(current.value.elems + d))) else Rejected
    case BS(d) =>
      if current.None? then NewValue(BS(Dedup(d)))
      else if current.value.BS? then NewValue(BS(Dedup(current.value.elems + d))) else Rejected
    case _ => Rejected
  }

  /** `applyDeleteOp`: an emptied set removes the attribute. */
  function DeleteFrom(current: Option<Value>, delta: Value): Effect {
    if current.None? then Gone
    else
      match delta
      case SS(d) =>
        if !current.value.SS? then Rejected
        else var rest := Without(current.value.elems, d); if rest == [] then Gone else NewValue(SS(rest))
      case NS(d) =>
        if !current.value.NS? then Rejected
        else var rest := Without(current.value.elems, d); if rest == [] then Gone else NewValue(NS(rest))
      case BS(d) =>
        if !current.value.BS? then Rejected
        else var rest := Without(current.value.elems, d); if rest == [] then Gone else NewValue(BS(rest))
      case _ => Rejected
  }

  function ArgValue(item: Item, a: Arg): Option<Value> {
    match a
    case Literal(v) => Some(v)
    case AttrRef(segs) => GetPath(item, segs)
    case OrElse(segs, fallback) =>
      var v := GetPath(item, segs);
      if v.Some? then v else Some(fallback)
  }

  /** The value a right-hand side stands for; None is a rejected list_append. */
  function RhsValue(item: Item, r: Rhs): Option<Value> {
    match r
    case Plain(v) => Some(v)
    case IfNotExists(segs, fallback) =>
      var v := GetPath(item, segs);
      if v.Some? then v else Some(fallback)
    case ListAppend(l, r) =>
      var x, y := ArgValue(item, l), ArgValue(item, r);
      if x.Some? && x.value.L? && y.Some? && y.value.L? then Some(L(x.value.list + y.value.list)) else None
  }

  /** The top-level attribute an entry writes: for a nested path its first step. */
  function Target(key: string, op: Op): string
    requires OpParsed(op)
  {
    if op.NestedSet? || op.NestedRemove? then op.segs[0].name else key
  }

  function EffectOf(lib: Lib, item: Item, key: string, op: Op): Effect
    requires OpParsed(op)
  {
    var current := Lookup(item, Target(key, op));
    match op
    case Remove => Gone
    case Set(rhs) =>
      var v := RhsValue(item, rhs);
      if v.None? then Rejected else NewValue(v.value)
    case Add(d) => AddTo(lib, current, d)
    case Delete(d) => DeleteFrom(current, d)
    case NestedSet(segs, rhs) =>
      var v := RhsValue(item, rhs);
      if v.None? || current.None? then Rejected
      else
        var w := SetAt(current.value, segs[1..], v.value);
        if w.None? then Rejected else NewValue(w.value)
    case NestedRemove(segs) =>
      if current.None? then Gone else NewValue(RemoveAt(current.value, segs[1..]))
  }

  function Write(item: Item, attr: string, e: Effect): Item
    requires !e.Rejected?
  {
    match e
    case NewValue(v) => item[attr := v]
    case Gone => item - {attr}
  }

  /** The nested operations of the source are these writes. */
  lemma NestedIsPathWrite(lib: Lib, item: Item, key: string, op: Op)
    requires OpParsed(op) && (op.NestedSet? || op.NestedRemove?)
    ensures var e := EffectOf(lib, item, key, op);
            if op.NestedRemove? then !e.Rejected? && Write(item, Target(key, op), e) == RemovePath(item, op.segs)
            else
              var v := RhsValue(item, op.rhs);
              v.Some? ==> (if e.Rejected? then SetPath(item, op.segs, v.value) == None
                           else SetPath(item, op.segs, v.value) == Some(Write(item, Target(key, op), e)))
  {
    if op.NestedRemove? && op.segs[0].name !in item {
      assert item - {op.segs[0].name} == item;
    }
  }

  // ---- a whole update, in a given order

  /** The entries of `updates` applied one after the other; None when one is rejected. */
  function ApplyIn(lib: Lib, item: Item, updates: Updates, order: seq<string>): Option<Item>
    requires forall k :: k in order ==> k in updates
  {
    if order == [] then Some(item)
    else
      var k := order[|order| - 1];
      var before := ApplyIn(lib, item, updates, order[..|order| - 1]);
      if before.None? then None
      else
        var e := EffectOf(lib, before.value, k, updates[k]);
        if e.Rejected? then None else Some(Write(before.value, Target(k, updates[k]), e))
  }

  /** An order a map iteration may take. */
  ghost predicate IterationOf(order: seq<string>, updates: Updates) {
    && NoDuplicates(order)
    && (forall k :: k in order <==> k in updates)
  }

  function ArgReads(a: Arg): set<string>
    requires ArgParsed(a)
  {
    if a.Literal? then {} else {a.segs[0].name}
  }

  function RhsReads(r: Rhs): set<string>
    requires RhsParsed(r)
  {
    match r
    case Plain(_) => {}
    case IfNotExists(segs, _) => {segs[0].name}
    case ListAppend(l, r) => ArgReads(l) + ArgReads(r)
  }

  /** The attributes the outcome of an entry depends on. */
  function Scope(key: string, op: Op): set<string>
    requires OpParsed(op)
  {
    {Target(key, op)} + (if op.Set? || op.NestedSet? then RhsReads(op.rhs) else {})
  }

  /** No entry depends on an attribute that another entry writes. */
  predicate Independent(updates: Updates) {
    forall j, k :: j in updates && k in updates && j != k ==>
      Target(j, updates[j]) !in Scope(k, updates[k])
  }

  lemma PathLocal(item: Item, other: Item, segs: seq<Seg>)
    requires PathParsed(segs) && Lookup(item, segs[0].name) == Lookup(other, segs[0].name)
    ensures GetPath(item, segs) == GetPath(other, segs)
  {
  }

  lemma RhsLocal(item: Item, other: Item, r: Rhs)
    requires RhsParsed(r) && forall a :: a in RhsReads(r) ==> Lookup(item, a) == Lookup(other, a)
    ensures RhsValue(item, r) == RhsValue(other, r)
  {
    match r {
      case Plain(_) =>
      case IfNotExists(segs, _) => PathLocal(item, other, segs);
      case ListAppend(x, y) =>
        if !x.Literal? { PathLocal(item, other, x.segs); }
        if !y.Literal? { PathLocal(item, other, y.segs); }
    }
  }

  lemma EffectLocal(lib: Lib, item: Item, other: Item, key: string, op: Op)
    requires OpParsed(op) && forall a :: a in Scope(key, op) ==> Lookup(item, a) == Lookup(other, a)
    ensures EffectOf(lib, item, key, op) == EffectOf(lib, other, key, op)
  {
    assert Target(key, op) in Scope(key, op);
    if op.Set? || op.NestedSet? {
      forall a | a in RhsReads(op.rhs)
        ensures Lookup(item, a) == Lookup(other, a)
      {
        assert a in Scope(key, op);
      }
      RhsLocal(item, other, op.rhs);
    }
  }

  function EffectValue(e: Effect): Option<Value> {
    if e.NewValue? then Some(e.value) else None
  }

  /** What the entry k does when it meets the item as it was. */
  function First(lib: Lib, item: Item, updates: Updates, k: string): Effect
    requires k in updates
  {
    EffectOf(lib, item, k, updates[k])
  }

  /** r is the outcome of the given entries, each evaluated on the original item. */
  ghost predicate Parallel(lib: Lib, item: Item, updates: Updates, order: seq<string>, r: Option<Item>)
    requires forall k :: k in order ==> k in updates
  {
    && (r.None? <==> exists k :: k in order && First(lib, item, updates, k).Rejected?)
    && (r.Some? ==>
          && (forall k :: k in order ==>
                Lookup(r.value, Target(k, updates[k])) == EffectValue(First(lib, item, updates, k)))
          && (forall a :: (forall k :: k in order ==> Target(k, updates[k]) != a) ==>
                Lookup(r.value, a) == Lookup(item, a)))
  }

  lemma {:induction false} ApplyIsParallel(lib: Lib, item: Item, updates: Updates, order: seq<string>)
    requires Independent(updates) && NoDuplicates(order) && forall k :: k in order ==> k in updates
    ensures Parallel(lib, item, updates, order, ApplyIn(lib, item, updates, order))
  {
    if order != [] {
      var init, k := order[..|order| - 1], order[|order| - 1];
      assert order == init + [k];
      var before := ApplyIn(lib, item, updates, init);
      ApplyIsParallel(lib, item, updates, init);
      if before.Some? {
        forall a | a in Scope(k, updates[k])
          ensures Lookup(before.value, a) == Lookup(item, a)
        {
          assert forall j :: j in init ==> j != k && Target(j, updates[j]) != a;
        }
        EffectLocal(lib, before.value, item, k, updates[k]);
        LastEntry(lib, item, updates, init, k, before.value);
      } else {
        var j :| j in init && First(lib, item, updates, j).Rejected?;
        assert j in order;
      }
    }
  }

  lemma LastEntry(lib: Lib, item: Item, updates: Updates, init: seq<string>, k: string, mid: Item)
    requires Independent(updates) && k in updates && k !in init && forall j :: j in init ==> j in updates
    requires Parallel(lib, item, updates, init, Some(mid))
    requires EffectOf(lib, mid, k, updates[k]) == First(lib, item, updates, k)
    ensures var e := EffectOf(lib, mid, k, updates[k]);
            Parallel(lib, item, updates, init + [k],
                     if e.Rejected? then None else Some(Write(mid, Target(k, updates[k]), e)))
  {
    hide EffectOf;
    var e, order := EffectOf(lib, mid, k, updates[k]), init + [k];
    var target := Target(k, updates[k]);
    assert k in order && forall j :: j in order <==> j in init || j == k;
    if !e.Rejected? {
      var r := Write(mid, target, e);
      forall j | j in order
        ensures Lookup(r, Target(j, updates[j])) == EffectValue(First(lib, item, updates, j))
      {
        if j != k {
          assert Target(j, updates[j]) != target by {
            assert target in Scope(k, updates[k]);
          }
        }
      }
      forall a | forall j :: j in order ==> Target(j, updates[j]) != a
        ensures Lookup(r, a) == Lookup(item, a)
      {
        assert forall j :: j in init ==> Target(j, updates[j]) != a;
      }
    }
  }

  lemma ItemsAgree(x: Item, y: Item)
    requires forall a :: Lookup(x, a) == Lookup(y, a)
    ensures x == y
  {
    forall a
      ensures a in x <==> a in y
      ensures a in x ==> x[a] == y[a]
    {
      assert Lookup(x, a) == Lookup(y, a);
    }
  }

  /** Independent entries give the same item in every iteration order, or are
      rejected in every order. */
  lemma OrderIrrelevant(lib: Lib, item: Item, updates: Updates, one: seq<string>, two: seq<string>)
    requires Independent(updates) && IterationOf(one, updates) && IterationOf(two, updates)
    ensures ApplyIn(lib, item, updates, one) == ApplyIn(lib, item, updates, two)
  {
    hide ApplyIn, First;
    var x, y := ApplyIn(lib, item, updates, one), ApplyIn(lib, item, updates, two);
    ApplyIsParallel(lib, item, updates, one);
    ApplyIsParallel(lib, item, updates, two);
    if x.Some? && y.Some? {
      forall a
        ensures Lookup(x.value, a) == Lookup(y.value, a)
      {
        if k :| k in one && Target(k, updates[k]) == a {
          assert k in two;
        } else {
          assert forall k :: k in two ==> k in one;
        }
      }
      ItemsAgree(x.value, y.value);
    }
  }

  lemma ApplyPair(lib: Lib, item: Item, updates: Updates, j: string, k: string)
    requires j in updates && k in updates
    ensures var e := EffectOf(lib, item, j, updates[j]);
            ApplyIn(lib, item, updates, [j, k])
            == if e.Rejected? then None
               else
                 var mid := Write(item, Target(j, updates[j]), e);
                 var f := EffectOf(lib, mid, k, updates[k]);
                 if f.Rejected? then None else Some(Write(mid, Target(k, updates[k]), f))
  {
    hide EffectOf;
    var one, two := [j], [j, k];
    assert two[..|two| - 1] == one && one[..|one| - 1] == [];
    assert ApplyIn(lib, item, updates, []) == Some(item);
    assert ApplyIn(lib, item, updates, one).Some? <==> !EffectOf(lib, item, j, updates[j]).Rejected?;
  }

  /** SET a = if_not_exists(b, 0), b = 1 */
  function ReadAndWrite(): Updates {
    map["a" := Set(IfNotExists([Attr("b")], N("0"))), "b" := Set(Plain(N("1")))]
  }

  /** Without independence the order shows. */
  lemma OrderCanMatter(lib: Lib)
    ensures var u := ReadAndWrite();
            && IterationOf(["a", "b"], u) && IterationOf(["b", "a"], u)
            && ApplyIn(lib, map[], u, ["a", "b"]) == Some(map["a" := N("0"), "b" := N("1")])
            && ApplyIn(lib, map[], u, ["b", "a"]) == Some(map["a" := N("1"), "b" := N("1")])
  {
    hide ApplyIn;
    ApplyPair(lib, map[], ReadAndWrite(), "a", "b");
    ApplyPair(lib, map[], ReadAndWrite(), "b", "a");
    var path := [Attr("b")];
    assert path[1..] == [];
    var start: Item, mid: Item := map[], map["b" := N("1")];
    assert GetPath(mid, path) == Some(N("1"));
    assert Write(start, "b", NewValue(N("1"))) == mid;
    assert Write(mid, "a", NewValue(N("1"))) == map["a" := N("1"), "b" := N("1")];
  }

  // ---- the previous image UpdateItem hands on

  predicate Nested(op: Op) { op.NestedSet? || op.NestedRemove? }

  /** `UpdateItem` keeps its previous image by copying the top level only, so a nested
      operation shows through it for as long as the attribute's value is shared. */
  datatype Images = Images(after: Item, shown: Item, shared: set<string>)

  function ImagesIn(lib: Lib, item: Item, updates: Updates, order: seq<string>): Option<Images>
    requires forall k :: k in order ==> k in updates
  {
    if order == [] then Some(Images(item, item, item.Keys))
    else
      var k := order[|order| - 1];
      var im := ImagesIn(lib, item, updates, order[..|order| - 1]);
      if im.None? then None
      else
        var e, target := EffectOf(lib, im.value.after, k, updates[k]), Target(k, updates[k]);
        if e.Rejected? then None
        else if Nested(updates[k]) then
          Some(im.value.(after := Write(im.value.after, target, e),
                         shown := if target in im.value.shared then Write(im.value.shown, target, e) else im.value.shown))
        else Some(im.value.(after := Write(im.value.after, target, e), shared := im.value.shared - {target}))
  }

  lemma {:induction false} ImagesAfter(lib: Lib, item: Item, updates: Updates, order: seq<string>)
    requires forall k :: k in order ==> k in updates
    ensures ImagesIn(lib, item, updates, order).None? <==> ApplyIn(lib, item, updates, order).None?
    ensures ImagesIn(lib, item, updates, order).Some? ==>
              ApplyIn(lib, item, updates, order) == Some(ImagesIn(lib, item, updates, order).value.after)
  {
    hide EffectOf;
    if order != [] {
      ImagesAfter(lib, item, updates, order[..|order| - 1]);
    }
  }

  /** The shown image has every nested target as it is after the update, and
      everything else as it was. */
  ghost predicate ShowsThrough(lib: Lib, item: Item, updates: Updates, order: seq<string>, im: Images)
    requires forall k :: k in order ==> k in updates
  {
    && (forall k :: k in order && Nested(updates[k]) ==>
          Lookup(im.shown, Target(k, updates[k])) == EffectValue(First(lib, item, updates, k)))
    && (forall a :: (forall k :: k in order && Nested(updates[k]) ==> Target(k, updates[k]) != a) ==>
          Lookup(im.shown, a) == Lookup(item, a))
    && (forall a :: a in item && (forall k :: k in order ==> Target(k, updates[k]) != a) ==> a in im.shared)
    && im.shared <= item.Keys
  }

  lemma {:induction false} ShownImage(lib: Lib, item: Item, updates: Updates, order: seq<string>)
    requires Independent(updates) && NoDuplicates(order) && forall k :: k in order ==> k in updates
    requires ImagesIn(lib, item, updates, order).Some?
    ensures ShowsThrough(lib, item, updates, order, ImagesIn(lib, item, updates, order).value)
  {
    if order != [] {
      var init, k := order[..|order| - 1], order[|order| - 1];
      assert order == init + [k];
      var mid := ImagesIn(lib, item, updates, init).value;
      ShownImage(lib, item, updates, init);
      ApplyIsParallel(lib, item, updates, init);
      ImagesAfter(lib, item, updates, init);
      forall a | a in Scope(k, updates[k])
        ensures Lookup(mid.after, a) == Lookup(item, a)
      {
        assert forall j :: j in init ==> j != k && Target(j, updates[j]) != a;
      }
      EffectLocal(lib, mid.after, item, k, updates[k]);
      assert Target(k, updates[k]) in Scope(k, updates[k]);
      if Nested(updates[k]) {
        ShownNested(lib, item, updates, init, k, mid);
      } else {
        ShownTop(lib, item, updates, init, k, mid);
      }
    }
  }

  /** k comes last, and no earlier entry writes its target. */
  ghost predicate NextAfter(lib: Lib, item: Item, updates: Updates, init: seq<string>, k: string, mid: Images) {
    && (forall j :: j in init ==> j in updates)
    && k in updates && k !in init
    && (forall j :: j in init ==> Target(j, updates[j]) != Target(k, updates[k]))
    && ShowsThrough(lib, item, updates, init, mid)
    && !First(lib, item, updates, k).Rejected?
  }

  lemma ShownNested(lib: Lib, item: Item, updates: Updates, init: seq<string>, k: string, mid: Images)
    requires NextAfter(lib, item, updates, init, k, mid) && Nested(updates[k])
    ensures var e, target := First(lib, item, updates, k), Target(k, updates[k]);
            ShowsThrough(lib, item, updates, init + [k],
              mid.(after := Write(mid.after, target, e),
                   shown := if target in mid.shared then Write(mid.shown, target, e) else mid.shown))
  {
    var e, target, order := First(lib, item, updates, k), Target(k, updates[k]), init + [k];
    if target !in item {
      AbsentNested(lib, item, k, updates[k]);
    }
    hide EffectOf;
    assert k in order && forall j :: j in order <==> j in init || j == k;
    var shown := if target in mid.shared then Write(mid.shown, target, e) else mid.shown;
    assert Lookup(shown, target) == EffectValue(e);
    forall a | forall j :: j in order && Nested(updates[j]) ==> Target(j, updates[j]) != a
      ensures Lookup(shown, a) == Lookup(item, a)
    {
      assert forall j :: j in init && Nested(updates[j]) ==> Target(j, updates[j]) != a;
    }
    forall a | a in item && (forall j :: j in order ==> Target(j, updates[j]) != a)
      ensures a in mid.shared
    {
      assert forall j :: j in init ==> Target(j, updates[j]) != a;
    }
  }

  lemma ShownTop(lib: Lib, item: Item, updates: Updates, init: seq<string>, k: string, mid: Images)
    requires NextAfter(lib, item, updates, init, k, mid) && !Nested(updates[k])
    ensures var e, target := First(lib, item, updates, k), Target(k, updates[k]);
            ShowsThrough(lib, item, updates, init + [k],
              mid.(after := Write(mid.after, target, e), shared := mid.shared - {target}))
  {
    hide EffectOf;
    var target, order := Target(k, updates[k]), init + [k];
    assert k in order && forall j :: j in order <==> j in init || j == k;
    forall a | forall j :: j in order && Nested(updates[j]) ==> Target(j, updates[j]) != a
      ensures Lookup(mid.shown, a) == Lookup(item, a)
    {
      assert forall j :: j in init && Nested(updates[j]) ==> Target(j, updates[j]) != a;
    }
    forall a | a in item && (forall j :: j in order ==> Target(j, updates[j]) != a)
      ensures a in mid.shared && a != target
    {
      assert forall j :: j in init ==> Target(j, updates[j]) != a;
    }
  }

  /** A nested operation needs its attribute: without it a set is rejected and a remove does nothing. */
  lemma AbsentNested(lib: Lib, item: Item, key: string, op: Op)
    requires OpParsed(op) && Nested(op) && Target(key, op) !in item
    ensures !EffectOf(lib, item, key, op).NewValue?
  {
  }

  /** How many entries run before the first top-level one on attribute a. */
  function BeforeTop(updates: Updates, order: seq<string>, a: string): (n: nat)
    requires forall k :: k in order ==> k in updates
    ensures n <= |order|
  {
    if order == [] then 0
    else
      var m, k := |order| - 1, order[|order| - 1];
      var n := BeforeTop(updates, order[..m], a);
      if n < m || (!Nested(updates[k]) && Target(k, updates[k]) == a) then n else n + 1
  }

  /** In every order, and whatever the entries read of each other: the shown image has of
      each attribute what the item had when the first top-level entry on it came. */
  lemma {:induction false} ShownInAnyOrder(lib: Lib, item: Item, updates: Updates, order: seq<string>, a: string)
    requires forall k :: k in order ==> k in updates
    requires ImagesIn(lib, item, updates, order).Some?
    ensures var n, im := BeforeTop(updates, order, a), ImagesIn(lib, item, updates, order).value;
            && ImagesIn(lib, item, updates, order[..n]).Some?
            && Lookup(im.shown, a) == Lookup(ImagesIn(lib, item, updates, order[..n]).value.after, a)
            && (a in im.shared <==> a in item && n == |order|)
            && (a !in item && n == |order| ==> a !in im.after && a !in im.shown)
  {
    hide EffectOf;
    if order == [] {
      assert order[..0] == [];
    } else {
      var m, k := |order| - 1, order[|order| - 1];
      var init, n := order[..m], BeforeTop(updates, order, a);
      ShownInAnyOrder(lib, item, updates, init, a);
      var mid := ImagesIn(lib, item, updates, init).value;
      assert init[..m] == init;
      if n <= m {
        assert order[..n] == init[..n];
      } else {
        assert order[..n] == order;
      }
      if Target(k, updates[k]) == a && Nested(updates[k]) && a !in mid.after {
        AbsentNested(lib, mid.after, k, updates[k]);
      }
    }
  }

  /** The shown image is the true previous one exactly if each attribute still has its
      value when the first top-level entry on it comes, or at the end if none does. */
  lemma ShownExactly(lib: Lib, item: Item, updates: Updates, order: seq<string>)
    requires forall k :: k in order ==> k in updates
    requires ImagesIn(lib, item, updates, order).Some?
    ensures ImagesIn(lib, item, updates, order).value.shown == item <==>
              forall a :: StillThere(lib, item, updates, order, a)
  {
    hide ImagesIn;
    var shown := ImagesIn(lib, item, updates, order).value.shown;
    forall a
      ensures StillThere(lib, item, updates, order, a) <==> Lookup(shown, a) == Lookup(item, a)
    {
      ShownInAnyOrder(lib, item, updates, order, a);
    }
    if forall a :: StillThere(lib, item, updates, order, a) {
      forall a
        ensures Lookup(shown, a) == Lookup(item, a)
      {
        assert StillThere(lib, item, updates, order, a);
      }
      ItemsAgree(shown, item);
    }
  }

  predicate StillThere(lib: Lib, item: Item, updates: Updates, order: seq<string>, a: string)
    requires forall k :: k in order ==> k in updates
  {
    var im := ImagesIn(lib, item, updates, order[..BeforeTop(updates, order, a)]);
    im.Some? && Lookup(im.value.after, a) == Lookup(item, a)
  }

  /** Without nested operations the shown image is the previous one. */
  lemma {:induction false} TopLevelShows(lib: Lib, item: Item, updates: Updates, order: seq<string>)
    requires forall k :: k in order ==> k in updates && !Nested(updates[k])
    requires ImagesIn(lib, item, updates, order).Some?
    ensures ImagesIn(lib, item, updates, order).value.shown == item
  {
    if order != [] {
      TopLevelShows(lib, item, updates, order[..|order| - 1]);
    }
  }

  /** The shown previous image is the true one exactly when every nested operation
      leaves its attribute's value as it was. */
  lemma ShownIsPrevious(lib: Lib, item: Item, updates: Updates, order: seq<string>)
    requires Independent(updates) && IterationOf(order, updates)
    requires ImagesIn(lib, item, updates, order).Some?
    ensures ImagesIn(lib, item, updates, order).value.shown == item <==>
              forall k :: k in updates && Nested(updates[k]) ==>
                EffectValue(First(lib, item, updates, k)) == Lookup(item, Target(k, updates[k]))
  {
    hide ImagesIn, First;
    var im := ImagesIn(lib, item, updates, order).value;
    ShownImage(lib, item, updates, order);
    if forall k :: k in updates && Nested(updates[k]) ==>
         EffectValue(First(lib, item, updates, k)) == Lookup(item, Target(k, updates[k])) {
      forall a
        ensures Lookup(im.shown, a) == Lookup(item, a)
      {
        if k :| k in order && Nested(updates[k]) && Target(k, updates[k]) == a {
          assert k in updates;
        }
      }
      ItemsAgree(im.shown, item);
    } else {
      var k :| k in updates && Nested(updates[k]) &&
               EffectValue(First(lib, item, updates, k)) != Lookup(item, Target(k, updates[k]));
      assert k in order;
    }
  }

  /** SET m.x = 2 */
  function SetField(): Updates {
    map["m.x" := NestedSet([Attr("m"), Attr("x")], Plain(N("2")))]
  }

  /** It writes through the shallow copy: the image handed on as the previous one already
      has the new value. */
  lemma NestedShowsThrough(lib: Lib)
    ensures var item: Item := map["m" := M(map["x" := N("1")])];
            var changed: Item := map["m" := M(map["x" := N("2")])];
            && IterationOf(["m.x"], SetField())
            && ImagesIn(lib, item, SetField(), ["m.x"]) == Some(Images(changed, changed, {"m"}))
  {
    var item: Item := map["m" := M(map["x" := N("1")])];
    var order := ["m.x"];
    assert order[..0] == [];
    assert item.Keys == {"m"};
    assert ImagesIn(lib, item, SetField(), order[..0]) == Some(Images(item, item, {"m"}));
    var path, two := [Attr("m"), Attr("x")], map["x" := N("2")];
    assert path[1..] == [Attr("x")];
    assert item["m"].fields["x" := N("2")] == two;
    assert SetAt(item["m"], path[1..], N("2")) == Some(M(two));
    assert EffectOf(lib, item, "m.x", SetField()["m.x"]) == NewValue(M(two));
    assert item["m" := M(two)] == map["m" := M(two)];
  }
}
