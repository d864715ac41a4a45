/** When the order of an update's entries cannot be observed, entries on one attribute
    included: nested paths that part at a map step, or at two list elements that both lead
    on, can be written in either order. */
module UpdateOrder {
  import opened Values
  import opened Parser
  import opened DocPath
  import opened Updates

  // ---- two nested writes

  /** A value written at a path, or what is there removed. */
  function Edit(v: Value, segs: seq<Seg>, x: Option<Value>): Option<Value>
    requires segs != []
  {
    if x.Some? then SetAt(v, segs, x.value) else Some(RemoveAt(v, segs))
  }

  /** The paths part, and not at a position in a list that one of them writes or removes. */
  predicate Forked(p: seq<Seg>, q: seq<Seg>)
    decreases |p|
  {
    && p != [] && q != []
    && if p[0] == q[0] then Forked(p[1..], q[1..]) else !(p[0].Index? && q[0].Index? && (|p| == 1 || |q| == 1))
  }

  lemma {:induction false} ForkedBack(p: seq<Seg>, q: seq<Seg>)
    requires Forked(p, q)
    ensures Forked(q, p)
    decreases |p|
  {
    if p[0] == q[0] {
      ForkedBack(p[1..], q[1..]);
    }
  }

  /** What becomes of the child the first step leads to: None if the write is impossible. */
  function ChildEdit(child: Option<Value>, segs: seq<Seg>, x: Option<Value>): Option<Option<Value>>
    requires segs != []
  {
    if |segs| == 1 then Some(x)
    else if child.None? then (if x.Some? then None else Some(None))
    else
      var r := Edit(child.value, segs[1..], x);
      if r.None? then None else Some(Some(r.value))
  }

  function WithField(fields: map<string, Value>, a: string, child: Option<Value>): map<string, Value> {
    if child.Some? then fields[a := child.value] else fields - {a}
  }

  lemma EditField(fields: map<string, Value>, segs: seq<Seg>, x: Option<Value>)
    requires segs != [] && segs[0].Attr?
    ensures var a := segs[0].name;
            var child := ChildEdit(Lookup(fields, a), segs, x);
            Edit(M(fields), segs, x) == if child.None? then None else Some(M(WithField(fields, a, child.value)))
  {
    var a := segs[0].name;
    if a !in fields {
      assert fields - {a} == fields;
    }
  }

  lemma FieldsApart(fields: map<string, Value>, a: string, x: Option<Value>, b: string, y: Option<Value>)
    requires a != b
    ensures WithField(WithField(fields, a, x), b, y) == WithField(WithField(fields, b, y), a, x)
    ensures Lookup(WithField(fields, a, x), b) == Lookup(fields, b)
  {
  }

  lemma FieldAgain(fields: map<string, Value>, a: string, x: Option<Value>, y: Option<Value>)
    ensures WithField(WithField(fields, a, x), a, y) == WithField(fields, a, y)
    ensures Lookup(WithField(fields, a, x), a) == x
  {
  }

  /** One edit, and then another one on what it leaves. */
  function Edits(v: Value, p: seq<Seg>, x: Option<Value>, q: seq<Seg>, y: Option<Value>): Option<Value>
    requires p != [] && q != []
  {
    var w := Edit(v, p, x);
    if w.None? then None else Edit(w.value, q, y)
  }

  /** The element a step that leads on goes to. */
  lemma EditElem(list: seq<Value>, segs: seq<Seg>, x: Option<Value>)
    requires |segs| > 1 && segs[0].Index?
    ensures var i := segs[0].index;
            Edit(L(list), segs, x)
            == if i >= |list| then (if x.Some? then None else Some(L(list)))
               else
                 var r := Edit(list[i], segs[1..], x);
                 if r.None? then None else Some(L(list[i := r.value]))
  {
  }

  /** A step that the value has no children for. */
  lemma EditMisfit(v: Value, segs: seq<Seg>, x: Option<Value>)
    requires segs != [] && if segs[0].Attr? then !v.M? else !v.L?
    ensures Edit(v, segs, x) == if x.Some? then None else Some(v)
  {
  }

  /** An edit leaves a map a map and a list a list. */
  lemma EditShape(v: Value, segs: seq<Seg>, x: Option<Value>)
    requires segs != [] && Edit(v, segs, x).Some?
    ensures v.M? <==> Edit(v, segs, x).value.M?
    ensures v.L? <==> Edit(v, segs, x).value.L?
  {
  }

  /** Edits on forked paths can be made in either order. */
  lemma {:induction false} EditsCommute(v: Value, p: seq<Seg>, x: Option<Value>, q: seq<Seg>, y: Option<Value>)
    requires Forked(p, q)
    ensures Edits(v, p, x, q, y) == Edits(v, q, y, p, x)
    decreases |p|, 2
  {
    hide Edit;
    if p[0].Attr? && q[0].Attr? {
      if v.M? {
        FieldEditsCommute(v.fields, p, x, q, y);
      } else {
        EditMisfit(v, p, x);
        EditMisfit(v, q, y);
      }
    } else if p[0].Index? && q[0].Index? {
      if v.L? {
        ElemEditsCommute(v.list, p, x, q, y);
      } else {
        EditMisfit(v, p, x);
        EditMisfit(v, q, y);
      }
    } else {
      MixedCommute(v, p, x, q, y);
    }
  }

  lemma MixedCommute(v: Value, p: seq<Seg>, x: Option<Value>, q: seq<Seg>, y: Option<Value>)
    requires p != [] && q != [] && p[0].Attr? != q[0].Attr?
    ensures Edits(v, p, x, q, y) == Edits(v, q, y, p, x)
  {
    hide Edit;
    if Edit(v, p, x).Some? {
      EditShape(v, p, x);
    }
    if Edit(v, q, y).Some? {
      EditShape(v, q, y);
    }
    var pFits, qFits := if p[0].Attr? then v.M? else v.L?, if q[0].Attr? then v.M? else v.L?;
    if !pFits {
      EditMisfit(v, p, x);
      if Edit(v, q, y).Some? {
        EditMisfit(Edit(v, q, y).value, p, x);
      }
    }
    if !qFits {
      EditMisfit(v, q, y);
      if Edit(v, p, x).Some? {
        EditMisfit(Edit(v, p, x).value, q, y);
      }
    }
  }

  function ChildEdits(child: Option<Value>, p: seq<Seg>, x: Option<Value>, q: seq<Seg>, y: Option<Value>): Option<Option<Value>>
    requires p != [] && q != []
  {
    var c := ChildEdit(child, p, x);
    if c.None? then None else ChildEdit(c.value, q, y)
  }

  /** Both edits go to the same field. */
  lemma SameField(fields: map<string, Value>, p: seq<Seg>, x: Option<Value>, q: seq<Seg>, y: Option<Value>)
    requires p != [] && q != [] && p[0].Attr? && p[0] == q[0]
    ensures var a := p[0].name;
            var child := ChildEdits(Lookup(fields, a), p, x, q, y);
            Edits(M(fields), p, x, q, y) == if child.None? then None else Some(M(WithField(fields, a, child.value)))
  {
    hide Edit, ChildEdit, WithField;
    var a := p[0].name;
    var c := ChildEdit(Lookup(fields, a), p, x);
    EditField(fields, p, x);
    if c.Some? {
      EditField(WithField(fields, a, c.value), q, y);
      FieldAgain(fields, a, c.value, None);
      if ChildEdit(c.value, q, y).Some? {
        FieldAgain(fields, a, c.value, ChildEdit(c.value, q, y).value);
      }
    }
  }

  /** The edits go to two fields. */
  lemma TwoFields(fields: map<string, Value>, p: seq<Seg>, x: Option<Value>, q: seq<Seg>, y: Option<Value>)
    requires p != [] && q != [] && p[0].Attr? && q[0].Attr? && p[0] != q[0]
    ensures var a, b := p[0].name, q[0].name;
            var c, d := ChildEdit(Lookup(fields, a), p, x), ChildEdit(Lookup(fields, b), q, y);
            Edits(M(fields), p, x, q, y)
            == if c.None? || d.None? then None else Some(M(WithField(WithField(fields, a, c.value), b, d.value)))
  {
    hide Edit, ChildEdit, WithField;
    var a, b := p[0].name, q[0].name;
    var c := ChildEdit(Lookup(fields, a), p, x);
    EditField(fields, p, x);
    if c.Some? {
      EditField(WithField(fields, a, c.value), q, y);
      FieldsApart(fields, a, c.value, b, None);
    }
  }

  lemma {:induction false} FieldEditsCommute(fields: map<string, Value>, p: seq<Seg>, x: Option<Value>, q: seq<Seg>, y: Option<Value>)
    requires Forked(p, q) && p[0].Attr? && q[0].Attr?
    ensures Edits(M(fields), p, x, q, y) == Edits(M(fields), q, y, p, x)
    decreases |p|, 1
  {
    hide Edits, ChildEdit, WithField;
    if p[0] == q[0] {
      SameField(fields, p, x, q, y);
      SameField(fields, q, y, p, x);
      ChildEditsCommute(Lookup(fields, p[0].name), p, x, q, y);
    } else {
      TwoFields(fields, p, x, q, y);
      TwoFields(fields, q, y, p, x);
      var a, b := p[0].name, q[0].name;
      var c, d := ChildEdit(Lookup(fields, a), p, x), ChildEdit(Lookup(fields, b), q, y);
      if c.Some? && d.Some? {
        FieldsApart(fields, a, c.value, b, d.value);
      }
    }
  }

  lemma {:induction false} ChildEditsCommute(child: Option<Value>, p: seq<Seg>, x: Option<Value>, q: seq<Seg>, y: Option<Value>)
    requires Forked(p, q) && p[0] == q[0]
    ensures ChildEdits(child, p, x, q, y) == ChildEdits(child, q, y, p, x)
    decreases |p|, 0
  {
    hide Edit;
    assert Forked(p[1..], q[1..]);
    if child.Some? {
      EditsCommute(child.value, p[1..], x, q[1..], y);
    }
  }

  lemma {:induction false} ElemEditsCommute(list: seq<Value>, p: seq<Seg>, x: Option<Value>, q: seq<Seg>, y: Option<Value>)
    requires Forked(p, q) && p[0].Index? && q[0].Index?
    ensures Edits(L(list), p, x, q, y) == Edits(L(list), q, y, p, x)
    decreases |p|, 1
  {
    assert |p| > 1 && |q| > 1;
    hide Edit;
    var i, j := p[0].index, q[0].index;
    EditElem(list, p, x);
    EditElem(list, q, y);
    if i < |list| && Edit(list[i], p[1..], x).Some? {
      EditElem(list[i := Edit(list[i], p[1..], x).value], q, y);
    }
    if j < |list| && Edit(list[j], q[1..], y).Some? {
      EditElem(list[j := Edit(list[j], q[1..], y).value], p, x);
    }
    if i == j && i < |list| {
      EditsCommute(list[i], p[1..], x, q[1..], y);
      ElemAgain(list, i, Edit(list[i], p[1..], x), Edits(list[i], p[1..], x, q[1..], y));
      ElemAgain(list, i, Edit(list[i], q[1..], y), Edits(list[i], q[1..], y, p[1..], x));
    } else if i < |list| && j < |list| {
      ElemsApart(list, i, Edit(list[i], p[1..], x), j, Edit(list[j], q[1..], y));
    }
  }

  lemma ElemAgain(list: seq<Value>, i: nat, x: Option<Value>, y: Option<Value>)
    requires i < |list|
    ensures x.Some? && y.Some? ==> list[i := x.value][i := y.value] == list[i := y.value]
  {
  }

  lemma ElemsApart(list: seq<Value>, i: nat, x: Option<Value>, j: nat, y: Option<Value>)
    requires i < |list| && j < |list| && i != j
    ensures x.Some? && y.Some? ==> list[i := x.value][j := y.value] == list[j := y.value][i := x.value]
  {
  }

  /** An edit leaves what a path reads that forks from its own. */
  lemma {:induction false} EditLeaves(v: Value, p: seq<Seg>, x: Option<Value>, r: seq<Seg>)
    requires Forked(p, r) && Edit(v, p, x).Some?
    ensures GetAt(Edit(v, p, x).value, r) == GetAt(v, r)
    decreases |p|, 1
  {
    hide Edit;
    if p[0].Attr? && v.M? {
      var a := p[0].name;
      EditField(v.fields, p, x);
      FieldAgain(v.fields, a, ChildEdit(Lookup(v.fields, a), p, x).value, None);
      if r[0].Attr? && r[0].name != a {
        FieldsApart(v.fields, a, ChildEdit(Lookup(v.fields, a), p, x).value, r[0].name, None);
      } else if a in v.fields && p[0] == r[0] {
        EditLeaves(v.fields[a], p[1..], x, r[1..]);
      }
    } else if p[0].Index? && v.L? {
      ElemLeaves(v.list, p, x, r);
    } else {
      EditMisfit(v, p, x);
    }
  }

  lemma {:induction false} ElemLeaves(list: seq<Value>, p: seq<Seg>, x: Option<Value>, r: seq<Seg>)
    requires Forked(p, r) && p[0].Index? && Edit(L(list), p, x).Some?
    ensures GetAt(Edit(L(list), p, x).value, r) == GetAt(L(list), r)
    decreases |p|, 0
  {
    if r[0].Index? {
      assert |p| > 1;
      EditElem(list, p, x);
      hide Edit;
      if p[0] == r[0] && p[0].index < |list| {
        EditLeaves(list[p[0].index], p[1..], x, r[1..]);
      }
    } else {
      EditShape(L(list), p, x);
    }
  }

  // ---- two entries

  /** Where an entry writes. */
  function WritePath(key: string, op: Op): seq<Seg>
    requires OpParsed(op)
  {
    if Nested(op) then op.segs else [Attr(key)]
  }

  function ArgPaths(a: Arg): seq<seq<Seg>> {
    if a.Literal? then [] else [a.segs]
  }

  /** What an entry reads besides the place it writes. */
  function ReadPaths(op: Op): seq<seq<Seg>> {
    if !op.Set? && !op.NestedSet? then []
    else
      match op.rhs
      case Plain(_) => []
      case IfNotExists(segs, _) => [segs]
      case ListAppend(l, r) => ArgPaths(l) + ArgPaths(r)
  }

  /** The entry k neither writes nor reads where j writes. */
  predicate Free(j: string, opj: Op, k: string, opk: Op)
    requires OpParsed(opj) && OpParsed(opk)
  {
    && Forked(WritePath(j, opj), WritePath(k, opk))
    && forall r :: r in ReadPaths(opk) ==> Forked(WritePath(j, opj), r)
  }

  predicate Compatible(updates: Updates) {
    forall j, k :: j in updates && k in updates && j != k ==> Free(j, updates[j], k, updates[k])
  }

  lemma IndependentIsCompatible(updates: Updates)
    requires Independent(updates)
    ensures Compatible(updates)
  {
    forall j, k | j in updates && k in updates && j != k
      ensures Free(j, updates[j], k, updates[k])
    {
      var p := WritePath(j, updates[j]);
      assert Target(k, updates[k]) in Scope(k, updates[k]) && p[0] == Attr(Target(j, updates[j]));
      forall r: seq<Seg> | r in ReadPaths(updates[k])
        ensures Forked(p, r)
      {
        assert r[0].name in Scope(k, updates[k]);
      }
    }
  }

  /** One entry on an item; None when it is rejected. */
  function Step(lib: Lib, item: Item, key: string, op: Op): Option<Item>
    requires OpParsed(op)
  {
    var e := EffectOf(lib, item, key, op);
    if e.Rejected? then None else Some(Write(item, Target(key, op), e))
  }

  /** What the entry wants to stand where it writes: a value or, inside, nothing. */
  function Wanted(lib: Lib, item: Item, key: string, op: Op): Option<Option<Value>>
    requires OpParsed(op)
  {
    match op
    case Set(rhs) => var v := RhsValue(item, rhs); if v.None? then None else Some(v)
    case NestedSet(_, rhs) => var v := RhsValue(item, rhs); if v.None? then None else Some(v)
    case Add(d) => var e := AddTo(lib, Lookup(item, key), d); if e.Rejected? then None else Some(EffectValue(e))
    case Delete(d) => var e := DeleteFrom(Lookup(item, key), d); if e.Rejected? then None else Some(EffectValue(e))
    case _ => Some(None)
  }

  function Edited(item: Item, segs: seq<Seg>, x: Option<Value>): Option<Item>
    requires segs != []
  {
    var r := Edit(M(item), segs, x);
    if r.Some? && r.value.M? then Some(r.value.fields) else None
  }

  lemma StepIsEdit(lib: Lib, item: Item, key: string, op: Op)
    requires OpParsed(op)
    ensures var w := Wanted(lib, item, key, op);
            Step(lib, item, key, op) == if w.None? then None else Edited(item, WritePath(key, op), w.value)
  {
    hide AddTo, DeleteFrom, RhsValue;
    if Nested(op) {
      NestedIsPathWrite(lib, item, key, op);
      if op.NestedRemove? {
        ItemPaths(item, op.segs, Null);
      } else if RhsValue(item, op.rhs).Some? {
        ItemPaths(item, op.segs, RhsValue(item, op.rhs).value);
      }
    } else {
      var w := Wanted(lib, item, key, op);
      if w.Some? {
        EditField(item, [Attr(key)], w.value);
      }
    }
  }

  lemma RhsStays(item: Item, item': Item, op: Op)
    requires op.Set? || op.NestedSet?
    requires forall r :: r in ReadPaths(op) ==> GetPath(item', r) == GetPath(item, r)
    ensures RhsValue(item', op.rhs) == RhsValue(item, op.rhs)
  {
    hide GetAt;
    match op.rhs {
      case Plain(_) =>
      case IfNotExists(segs, _) => assert segs in ReadPaths(op);
      case ListAppend(l, r) =>
        assert l.Literal? || l.segs in ReadPaths(op);
        assert r.Literal? || r.segs in ReadPaths(op);
    }
  }

  /** An edit elsewhere does not change what an entry wants. */
  lemma WantedStays(lib: Lib, item: Item, j: string, opj: Op, x: Option<Value>, k: string, opk: Op)
    requires OpParsed(opj) && OpParsed(opk) && Free(j, opj, k, opk) && Edited(item, WritePath(j, opj), x).Some?
    ensures Wanted(lib, Edited(item, WritePath(j, opj), x).value, k, opk) == Wanted(lib, item, k, opk)
  {
    hide Edit, Forked, AddTo, DeleteFrom, RhsValue;
    var p, item' := WritePath(j, opj), Edited(item, WritePath(j, opj), x).value;
    assert Edit(M(item), p, x) == Some(M(item'));
    if opk.Set? || opk.NestedSet? {
      forall r | r in ReadPaths(opk)
        ensures GetPath(item', r) == GetPath(item, r)
      {
        EditLeaves(M(item), p, x, r);
      }
      RhsStays(item, item', opk);
    } else if !Nested(opk) {
      EditLeaves(M(item), p, x, [Attr(k)]);
      LookupPath(item, k);
      LookupPath(item', k);
    }
  }

  lemma LookupPath(item: Item, a: string)
    ensures GetAt(M(item), [Attr(a)]) == Lookup(item, a)
  {
    assert [Attr(a)][1..] == [];
  }

  function Steps(lib: Lib, item: Item, j: string, opj: Op, k: string, opk: Op): Option<Item>
    requires OpParsed(opj) && OpParsed(opk)
  {
    var mid := Step(lib, item, j, opj);
    if mid.None? then None else Step(lib, mid.value, k, opk)
  }

  lemma StepsAreEdits(lib: Lib, item: Item, j: string, opj: Op, k: string, opk: Op)
    requires OpParsed(opj) && OpParsed(opk) && Free(j, opj, k, opk)
    ensures var x, y := Wanted(lib, item, j, opj), Wanted(lib, item, k, opk);
            Steps(lib, item, j, opj, k, opk)
            == if x.None? || y.None? then None
               else
                 var r := Edits(M(item), WritePath(j, opj), x.value, WritePath(k, opk), y.value);
                 if r.Some? && r.value.M? then Some(r.value.fields) else None
  {
    hide Step, Wanted, Edit, Free;
    StepIsEdit(lib, item, j, opj);
    var x := Wanted(lib, item, j, opj);
    if x.Some? {
      var p := WritePath(j, opj);
      if Edit(M(item), p, x.value).Some? {
        EditShape(M(item), p, x.value);
        var mid := Edited(item, p, x.value).value;
        assert Edit(M(item), p, x.value) == Some(M(mid));
        WantedStays(lib, item, j, opj, x.value, k, opk);
        StepIsEdit(lib, mid, k, opk);
      }
    }
  }

  /** Two entries that are free of each other can come in either order. */
  lemma StepsCommute(lib: Lib, item: Item, j: string, opj: Op, k: string, opk: Op)
    requires OpParsed(opj) && OpParsed(opk) && Free(j, opj, k, opk) && Free(k, opk, j, opj)
    ensures Steps(lib, item, j, opj, k, opk) == Steps(lib, item, k, opk, j, opj)
  {
    hide Steps, Wanted, Edits, Forked;
    StepsAreEdits(lib, item, j, opj, k, opk);
    StepsAreEdits(lib, item, k, opk, j, opj);
    var x, y := Wanted(lib, item, j, opj), Wanted(lib, item, k, opk);
    if x.Some? && y.Some? {
      EditsCommute(M(item), WritePath(j, opj), x.value, WritePath(k, opk), y.value);
    }
  }

  // ---- all entries

  lemma ApplySnoc(lib: Lib, item: Item, updates: Updates, order: seq<string>, k: string)
    requires (forall j :: j in order ==> j in updates) && k in updates
    ensures forall j :: j in order + [k] ==> j in updates
    ensures var before := ApplyIn(lib, item, updates, order);
            ApplyIn(lib, item, updates, order + [k])
            == if before.None? then None else Step(lib, before.value, k, updates[k])
  {
    hide EffectOf;
    assert (order + [k])[..|order|] == order;
  }

  /** The order without its i-th entry. */
  function Dropped(order: seq<string>, i: nat): seq<string>
    requires i < |order|
  {
    order[..i] + order[i + 1..]
  }

  lemma {:induction false} MoveLast(lib: Lib, item: Item, updates: Updates, order: seq<string>, i: nat)
    requires Compatible(updates) && NoDuplicates(order) && i < |order| && forall j :: j in order ==> j in updates
    ensures forall j :: j in Dropped(order, i) + [order[i]] ==> j in updates
    ensures ApplyIn(lib, item, updates, order) == ApplyIn(lib, item, updates, Dropped(order, i) + [order[i]])
    decreases |order|
  {
    hide Compatible, ApplyIn, Step;
    var m := |order| - 1;
    var init, k, l := order[..m], order[i], order[m];
    assert order == init + [l];
    if i == m {
      assert Dropped(order, i) + [k] == order;
    } else {
      MoveLast(lib, item, updates, init, i);
      var rest := Dropped(init, i);
      assert Dropped(order, i) == rest + [l];
      ApplySnoc(lib, item, updates, init, l);
      ApplySnoc(lib, item, updates, rest, k);
      ApplySnoc(lib, item, updates, rest, l);
      ApplySnoc(lib, item, updates, rest + [l], k);
      var start := ApplyIn(lib, item, updates, rest);
      if start.Some? {
        FreeBoth(updates, k, l);
        StepsCommute(lib, start.value, k, updates[k], l, updates[l]);
      }
    }
  }

  lemma FreeBoth(updates: Updates, j: string, k: string)
    requires Compatible(updates) && j in updates && k in updates && j != k
    ensures Free(j, updates[j], k, updates[k]) && Free(k, updates[k], j, updates[j])
  {
  }

  /** Compatible entries give the same item in every order, or are rejected in every order. */
  lemma {:induction false} CompatibleOrder(lib: Lib, item: Item, updates: Updates, one: seq<string>, two: seq<string>)
    requires Compatible(updates) && NoDuplicates(one) && NoDuplicates(two)
    requires (forall k :: k in one ==> k in updates) && forall k :: k in one <==> k in two
    ensures ApplyIn(lib, item, updates, one) == ApplyIn(lib, item, updates, two)
    decreases |one|
  {
    hide Compatible, ApplyIn, Step;
    if one == [] {
      if two != [] {
        HasMember(two);
      }
    } else {
      var m := |one| - 1;
      var init, k := one[..m], one[m];
      assert one == init + [k] && k in one;
      var i :| 0 <= i < |two| && two[i] == k;
      var rest := Dropped(two, i);
      DroppedMembers(two, i);
      DroppedMembers(one, m);
      assert Dropped(one, m) == init;
      MoveLast(lib, item, updates, two, i);
      CompatibleOrder(lib, item, updates, init, rest);
      ApplySnoc(lib, item, updates, init, k);
      ApplySnoc(lib, item, updates, rest, k);
    }
  }

  lemma HasMember(order: seq<string>)
    requires order != []
    ensures exists k :: k in order
  {
    assert order[0] in order;
  }

  lemma DroppedMembers(order: seq<string>, i: nat)
    requires NoDuplicates(order) && i < |order|
    ensures NoDuplicates(Dropped(order, i))
    ensures forall k :: k in Dropped(order, i) <==> k in order && k != order[i]
  {
    var rest := Dropped(order, i);
    forall k | k in order && k != order[i]
      ensures k in rest
    {
      var j :| 0 <= j < |order| && order[j] == k;
      assert k == if j < i then rest[j] else rest[j - 1];
    }
  }

  /** SET m.x = 1, m.y = if_not_exists(m.y, 2) */
  function TwoFieldsOfOne(): Updates {
    map["m.x" := NestedSet([Attr("m"), Attr("x")], Plain(N("1"))),
        "m.y" := NestedSet([Attr("m"), Attr("y")], IfNotExists([Attr("m"), Attr("y")], N("2")))]
  }

  /** Entries on one attribute can be compatible without being independent. */
  lemma FinerThanIndependent()
    ensures Compatible(TwoFieldsOfOne()) && !Independent(TwoFieldsOfOne())
  {
    var u := TwoFieldsOfOne();
    assert Target("m.x", u["m.x"]) in Scope("m.y", u["m.y"]);
    var x, y := [Attr("m"), Attr("x")], [Attr("m"), Attr("y")];
    assert x[1..] == [Attr("x")] && y[1..] == [Attr("y")];
    assert Forked(x[1..], y[1..]) && Forked(y[1..], x[1..]);
    assert Forked(x, y) && Forked(y, x);
  }
}
