/** Document paths inside nested maps and lists: reading, writing and removing
    at a path, and the laws that tie the three together. */
module DocPath {
  import opened Values
  import opened Parser

  /** `resolveUpdatePath` below the top level: None when a step is absent. */
  function GetAt(v: Value, segs: seq<Seg>): Option<Value>
    decreases |segs|
  {
    if segs == [] then Some(v)
    else
      match segs[0]
      case Attr(name) =>
        if v.M? && name in v.fields then GetAt(v.fields[name], segs[1..]) else None
      case Index(i) =>
        if v.L? && i < |v.list| then GetAt(v.list[i], segs[1..]) else None
  }

  /** `setAtDynamoValue`: None is its error. An index past the end appends. */
  function SetAt(v: Value, segs: seq<Seg>, x: Value): Option<Value>
    requires segs != []
    decreases |segs|
  {
    match segs[0]
    case Attr(name) =>
      if !v.M? then None
      else if |segs| == 1 then Some(M(v.fields[name := x]))
      else if name !in v.fields then None
      else
        var child := SetAt(v.fields[name], segs[1..], x);
        if child.None? then None else Some(M(v.fields[name := child.value]))
    case Index(i) =>
      if !v.L? then None
      else if |segs| == 1 then
        Some(L(if i < |v.list| then v.list[i := x] else v.list + [x]))
      else if i >= |v.list| then None
      else
        var child := SetAt(v.list[i], segs[1..], x);
        if child.None? then None else Some(L(v.list[i := child.value]))
  }

  /** `removeAtDynamoValue`: a missing step leaves the value as it is. */
  function RemoveAt(v: Value, segs: seq<Seg>): Value
    requires segs != []
    decreases |segs|
  {
    match segs[0]
    case Attr(name) =>
      if !v.M? || name !in v.fields then v
      else if |segs| == 1 then M(v.fields - {name})
      else M(v.fields[name := RemoveAt(v.fields[name], segs[1..])])
    case Index(i) =>
      if !v.L? || i >= |v.list| then v
      else if |segs| == 1 then L(v.list[..i] + v.list[i + 1..])
      else L(v.list[i := RemoveAt(v.list[i], segs[1..])])
  }

  // ---- an item is the fields of a map value

  function GetPath(item: Item, segs: seq<Seg>): Option<Value> { GetAt(M(item), segs) }

  /** `applyNestedSet`, for a path of at least two steps. */
  function SetPath(item: Item, segs: seq<Seg>, x: Value): Option<Item>
    requires |segs| > 1 && segs[0].Attr?
  {
    if segs[0].name !in item then None
    else
      var child := SetAt(item[segs[0].name], segs[1..], x);
      if child.None? then None else Some(item[segs[0].name := child.value])
  }

  /** `applyNestedRemove`, for a path of at least two steps. */
  function RemovePath(item: Item, segs: seq<Seg>): Item
    requires |segs| > 1 && segs[0].Attr?
  {
    if segs[0].name !in item then item
    else item[segs[0].name := RemoveAt(item[segs[0].name], segs[1..])]
  }

  lemma ItemPaths(item: Item, segs: seq<Seg>, x: Value)
    requires |segs| > 1 && segs[0].Attr?
    ensures var r := SetPath(item, segs, x);
            SetAt(M(item), segs, x) == (if r.None? then None else Some(M(r.value)))
    ensures RemoveAt(M(item), segs) == M(RemovePath(item, segs))
  {
  }

  // ---- when a write is possible, and where it lands

  /** The container the last step of the path goes into has the type that step needs. */
  predicate ParentFits(v: Value, segs: seq<Seg>)
    requires segs != []
  {
    var parent := GetAt(v, segs[..|segs| - 1]);
    parent.Some? && if segs[|segs| - 1].Attr? then parent.value.M? else parent.value.L?
  }

  /** The path at which the written value is found: an index past the end becomes the end. */
  function Landed(v: Value, segs: seq<Seg>): (p: seq<Seg>)
    requires segs != []
    ensures |p| == |segs|
  {
    var parent, last := GetAt(v, segs[..|segs| - 1]), segs[|segs| - 1];
    if last.Index? && parent.Some? && parent.value.L? && last.index >= |parent.value.list|
    then segs[..|segs| - 1] + [Index(|parent.value.list|)]
    else segs
  }

  /** The paths part at some step. */
  predicate Apart(p: seq<Seg>, q: seq<Seg>) {
    exists i :: 0 <= i < |p| && i < |q| && p[..i] == q[..i] && p[i] != q[i]
  }

  /** The child of v that a step leads to. */
  function Child(v: Value, seg: Seg): Option<Value> {
    match seg
    case Attr(name) => if v.M? && name in v.fields then Some(v.fields[name]) else None
    case Index(i) => if v.L? && i < |v.list| then Some(v.list[i]) else None
  }

  lemma GetAtCons(v: Value, seg: Seg, rest: seq<Seg>)
    ensures GetAt(v, [seg] + rest)
            == (if Child(v, seg).None? then None else GetAt(Child(v, seg).value, rest))
  {
    assert ([seg] + rest)[1..] == rest;
  }

  /** Below the first step, writing and landing are those of the child. */
  lemma Descend(v: Value, segs: seq<Seg>)
    requires |segs| > 1 && Child(v, segs[0]).Some?
    ensures var c := Child(v, segs[0]).value;
            && ParentFits(v, segs) == ParentFits(c, segs[1..])
            && Landed(v, segs) == [segs[0]] + Landed(c, segs[1..])
  {
    var c, rest := Child(v, segs[0]).value, segs[1..];
    assert segs[..|segs| - 1] == [segs[0]] + rest[..|rest| - 1];
    GetAtCons(v, segs[0], rest[..|rest| - 1]);
    assert segs == [segs[0]] + rest;
  }

  lemma {:induction false} SetFailsExactly(v: Value, segs: seq<Seg>, x: Value)
    requires segs != []
    ensures SetAt(v, segs, x).Some? <==> ParentFits(v, segs)
    decreases |segs|
  {
    if |segs| == 1 {
      assert segs[..0] == [];
    } else if Child(v, segs[0]).Some? {
      Descend(v, segs);
      SetFailsExactly(Child(v, segs[0]).value, segs[1..], x);
    } else {
      assert segs[..|segs| - 1] == [segs[0]] + segs[1..|segs| - 1];
      GetAtCons(v, segs[0], segs[1..|segs| - 1]);
    }
  }

  lemma {:induction false} SetThenGet(v: Value, segs: seq<Seg>, x: Value)
    requires segs != [] && SetAt(v, segs, x).Some?
    ensures GetAt(SetAt(v, segs, x).value, Landed(v, segs)) == Some(x)
    decreases |segs|
  {
    var w := SetAt(v, segs, x).value;
    if |segs| == 1 {
      assert segs[..0] == [];
      var p := Landed(v, segs);
      assert p[1..] == [];
    } else {
      var c := Child(v, segs[0]).value;
      Descend(v, segs);
      SetThenGet(c, segs[1..], x);
      GetAtCons(w, segs[0], Landed(c, segs[1..]));
    }
  }

  lemma ApartTail(p: seq<Seg>, q: seq<Seg>)
    requires Apart(p, q) && p != [] && q != [] && p[0] == q[0]
    ensures Apart(p[1..], q[1..])
  {
    var i :| 0 <= i < |p| && i < |q| && p[..i] == q[..i] && p[i] != q[i];
    assert p[1..][..i - 1] == p[..i][1..] && q[1..][..i - 1] == q[..i][1..];
    assert p[1..][i - 1] != q[1..][i - 1];
  }

  lemma ApartSingle(p: seq<Seg>, q: seq<Seg>)
    requires |p| == 1 && Apart(p, q)
    ensures q != [] && p[0] != q[0]
  {
  }

  lemma ApartHead(p: seq<Seg>, q: seq<Seg>)
    requires Apart(p, q)
    ensures p != [] && q != []
  {
  }

  lemma SetLeavesSiblings(v: Value, segs: seq<Seg>, x: Value, q: seq<Seg>)
    requires |segs| == 1 && SetAt(v, segs, x).Some? && Apart(Landed(v, segs), q)
    ensures GetAt(SetAt(v, segs, x).value, q) == GetAt(v, q)
  {
    assert segs[..0] == [];
    ApartSingle(Landed(v, segs), q);
  }

  /** A write leaves every path that parts from where it lands. */
  lemma {:induction false} SetLeavesOthers(v: Value, segs: seq<Seg>, x: Value, q: seq<Seg>)
    requires segs != [] && SetAt(v, segs, x).Some? && Apart(Landed(v, segs), q)
    ensures GetAt(SetAt(v, segs, x).value, q) == GetAt(v, q)
    decreases |segs|
  {
    var w, p := SetAt(v, segs, x).value, Landed(v, segs);
    ApartHead(p, q);
    if |segs| == 1 {
      SetLeavesSiblings(v, segs, x, q);
    } else {
      var c := Child(v, segs[0]).value;
      Descend(v, segs);
      hide Apart, Landed;
      if p[0] == q[0] {
        ApartTail(p, q);
        assert p[1..] == Landed(c, segs[1..]);
        SetLeavesOthers(c, segs[1..], x, q[1..]);
      }
    }
  }

  // ---- removal

  lemma {:induction false} RemoveMissing(v: Value, segs: seq<Seg>)
    requires segs != [] && GetAt(v, segs).None?
    ensures RemoveAt(v, segs) == v
    decreases |segs|
  {
    if |segs| == 1 {
      assert segs[1..] == [];
    } else if Child(v, segs[0]).Some? {
      RemoveMissing(Child(v, segs[0]).value, segs[1..]);
    }
  }

  /** Where a path of v is found after a removal: past a removed list element,
      positions in that list move down by one. */
  function Moved(segs: seq<Seg>, q: seq<Seg>): seq<Seg>
    requires segs != []
  {
    var k := |segs| - 1;
    if segs[k].Index? && |q| > k && q[..k] == segs[..k] && q[k].Index? && q[k].index > segs[k].index
    then q[..k] + [Index(q[k].index - 1)] + q[k + 1..]
    else q
  }

  lemma MovedTail(segs: seq<Seg>, q: seq<Seg>)
    requires |segs| > 1 && q != [] && q[0] == segs[0]
    ensures Moved(segs, q) == [q[0]] + Moved(segs[1..], q[1..])
  {
    var k := |segs| - 1;
    var s, t := segs[1..], q[1..];
    assert s[k - 1] == segs[k] && q == [q[0]] + t;
    if |q| > k {
      SameStart(segs, q, k);
      var i := Index(if q[k].Index? && q[k].index > 0 then q[k].index - 1 else 0);
      assert q[..k] + [i] + q[k + 1..] == [q[0]] + (t[..k - 1] + [i] + t[k..]);
    }
  }

  lemma SameStart(p: seq<Seg>, q: seq<Seg>, k: nat)
    requires 0 < k <= |p| && k <= |q| && p[0] == q[0]
    ensures q[..k] == p[..k] <==> q[1..][..k - 1] == p[1..][..k - 1]
  {
    assert q[..k] == [q[0]] + q[1..][..k - 1];
    assert p[..k] == [p[0]] + p[1..][..k - 1];
  }

  /** Removal changes nothing else: every path apart from the removed one keeps
      its value, at the place its list element has moved to. */
  lemma {:induction false} RemoveKeepsOthers(v: Value, segs: seq<Seg>, q: seq<Seg>)
    requires segs != [] && GetAt(v, segs).Some? && Apart(segs, q)
    ensures GetAt(RemoveAt(v, segs), Moved(segs, q)) == GetAt(v, q)
    decreases |segs|
  {
    var w := RemoveAt(v, segs);
    ApartHead(segs, q);
    if |segs| == 1 {
      assert segs[..0] == [] && q[..0] == [];
      assert [] + [Index(0)] == [Index(0)];
      ApartSingle(segs, q);
      var m := Moved(segs, q);
      assert m[1..] == q[1..];
    } else {
      var c := Child(v, segs[0]).value;
      if segs[0] == q[0] {
        ApartTail(segs, q);
        RemoveKeepsOthers(c, segs[1..], q[1..]);
        MovedTail(segs, q);
        GetAtCons(w, q[0], Moved(segs[1..], q[1..]));
      } else {
        NotMoved(segs, q);
      }
    }
  }

  lemma NotMoved(segs: seq<Seg>, q: seq<Seg>)
    requires |segs| > 1 && q != [] && q[0] != segs[0]
    ensures Moved(segs, q) == q
  {
    var k := |segs| - 1;
    if |q| > k {
      assert q[..k][0] == q[0] && segs[..k][0] == segs[0];
    }
  }

  /** After removing a map entry nothing is left at its path; after removing a
      list element the path shows the next one, if any. */
  lemma {:induction false} RemovedIsGone(v: Value, segs: seq<Seg>)
    requires segs != [] && GetAt(v, segs).Some?
    ensures var last := segs[|segs| - 1];
            GetAt(RemoveAt(v, segs), segs)
            == if last.Attr? then None else GetAt(v, segs[..|segs| - 1] + [Index(last.index + 1)])
    decreases |segs|
  {
    var w, last := RemoveAt(v, segs), segs[|segs| - 1];
    if |segs| == 1 {
      assert segs[1..] == [] && segs[..0] + [Index(0)] == [Index(0)];
      if last.Index? {
        var next := segs[..0] + [Index(last.index + 1)];
        assert next[0] == Index(last.index + 1) && next[1..] == [];
      }
    } else {
      var c, rest := Child(v, segs[0]).value, segs[1..];
      RemovedIsGone(c, rest);
      if last.Index? {
        var next := rest[..|rest| - 1] + [Index(last.index + 1)];
        assert segs[..|segs| - 1] + [Index(last.index + 1)] == [segs[0]] + next;
        GetAtCons(v, segs[0], next);
      }
    }
  }
}
