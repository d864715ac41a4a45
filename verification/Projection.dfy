/** Projection expressions: the tree the paths are merged into, and what it keeps of an item. */
module Projection {
  import opened Values
  import opened Parser
  import opened DocPath

  /** `leaf` takes the whole value. */
  datatype Node = Node(leaf: bool, children: map<string, Node>, idxs: map<nat, Node>)

  const EMPTY := Node(false, map[], map[])

  /** Where a step leads: to a named child, or, with an empty name too, to an index. */
  datatype Slot = Named(name: string) | At(index: nat)

  function SlotOf(seg: Seg): Slot {
    if seg.Index? then At(seg.index) else if seg.name == "" then At(0) else Named(seg.name)
  }

  function Below(n: Node, slot: Slot): Node {
    match slot
    case Named(a) => if a in n.children then n.children[a] else EMPTY
    case At(i) => if i in n.idxs then n.idxs[i] else EMPTY
  }

  function With(n: Node, slot: Slot, child: Node): Node {
    match slot
    case Named(a) => n.(children := n.children[a := child])
    case At(i) => n.(idxs := n.idxs[i := child])
  }

  /** `addPath`. */
  function AddPath(n: Node, segs: seq<Seg>): Node
    decreases |segs|
  {
    if n.leaf then n
    else if segs == [] then Node(true, map[], map[])
    else
      var slot := SlotOf(segs[0]);
      With(n, slot, AddPath(Below(n, slot), segs[1..]))
  }

  /** The tree of a list of paths. */
  function Build(paths: seq<seq<Seg>>): Node {
    if paths == [] then EMPTY else AddPath(Build(paths[..|paths| - 1]), paths[|paths| - 1])
  }

  /** `projectValue`: list elements keep their order but not their positions. */
  function Project(v: Value, n: Node): Value
    decreases v, 1, 0
  {
    if n.children == map[] && n.idxs == map[] then v
    else if n.children != map[] then
      if v.M? then M(map a | a in n.children && a in v.fields :: Project(v.fields[a], n.children[a])) else v
    else if v.L? then L(ProjectList(v, n, |v.list|))
    else v
  }

  function ProjectList(v: Value, n: Node, k: nat): seq<Value>
    requires v.L? && k <= |v.list|
    decreases v, 0, k
  {
    if k == 0 then []
    else ProjectList(v, n, k - 1) + if k - 1 in n.idxs then [Project(v.list[k - 1], n.idxs[k - 1])] else []
  }

  /** `apply`. */
  function Apply(root: Node, item: Item): Item {
    map a | a in root.children && a in item :: Project(item[a], root.children[a])
  }

  // ---- the tree does not depend on order or repetition

  lemma BelowWith(n: Node, slot: Slot, child: Node, other: Slot)
    ensures Below(With(n, slot, child), other) == if other == slot then child else Below(n, other)
    ensures With(n, slot, child).leaf == n.leaf
  {
  }

  lemma WithTwice(n: Node, slot: Slot, child: Node, other: Node)
    ensures With(With(n, slot, other), slot, child) == With(n, slot, child)
  {
  }

  lemma WithCommutes(n: Node, slot: Slot, child: Node, slot': Slot, child': Node)
    requires slot != slot'
    ensures With(With(n, slot, child), slot', child') == With(With(n, slot', child'), slot, child)
  {
    var x, y := With(With(n, slot, child), slot', child'), With(With(n, slot', child'), slot, child);
    assert x.children == y.children && x.idxs == y.idxs;
  }

  lemma {:induction false} AddTwice(n: Node, p: seq<Seg>)
    ensures AddPath(AddPath(n, p), p) == AddPath(n, p)
    decreases |p|
  {
    hide Below, With;
    if !n.leaf && p != [] {
      var slot := SlotOf(p[0]);
      var child := AddPath(Below(n, slot), p[1..]);
      AddTwice(Below(n, slot), p[1..]);
      BelowWith(n, slot, child, slot);
      WithTwice(n, slot, child, child);
    }
  }

  lemma {:induction false} AddCommutes(n: Node, p: seq<Seg>, q: seq<Seg>)
    ensures AddPath(AddPath(n, p), q) == AddPath(AddPath(n, q), p)
    decreases |p|
  {
    hide Below, With;
    if !n.leaf && p != [] && q != [] {
      var s, t := SlotOf(p[0]), SlotOf(q[0]);
      var c, d := AddPath(Below(n, s), p[1..]), AddPath(Below(n, t), q[1..]);
      BelowWith(n, s, c, t);
      BelowWith(n, t, d, s);
      if s == t {
        AddCommutes(Below(n, s), p[1..], q[1..]);
        WithTwice(n, s, AddPath(c, q[1..]), c);
        WithTwice(n, s, AddPath(d, p[1..]), d);
      } else {
        WithCommutes(n, s, c, t, d);
      }
    }
    if !n.leaf && (p == [] || q == []) {
      EmptyWins(n, p);
      EmptyWins(n, q);
    }
  }

  /** The whole value swallows every narrower path, before or after it. */
  lemma EmptyWins(n: Node, p: seq<Seg>)
    requires !n.leaf
    ensures AddPath(AddPath(n, p), []) == AddPath(n, []) == AddPath(AddPath(n, []), p)
  {
  }

  /** A path that is in already changes nothing. */
  lemma {:induction false} AddAgain(paths: seq<seq<Seg>>, p: seq<Seg>)
    requires p in paths
    ensures AddPath(Build(paths), p) == Build(paths)
  {
    var n := |paths| - 1;
    var init := paths[..n];
    if p == paths[n] {
      AddTwice(Build(init), p);
    } else {
      assert p in init;
      AddAgain(init, p);
      AddCommutes(Build(init), paths[n], p);
    }
  }

  lemma {:induction false} BuildMore(paths: seq<seq<Seg>>, more: seq<seq<Seg>>)
    requires forall p :: p in more ==> p in paths
    ensures Build(paths + more) == Build(paths)
  {
    if more == [] {
      assert paths + more == paths;
    } else {
      var n := |more| - 1;
      BuildMore(paths, more[..n]);
      assert (paths + more)[..|paths| + n] == paths + more[..n];
      assert more[n] in more;
      AddAgain(paths, more[n]);
    }
  }

  lemma {:induction false} AddLater(paths: seq<seq<Seg>>, more: seq<seq<Seg>>, p: seq<Seg>)
    ensures Build(paths + more + [p]) == Build(paths + [p] + more)
  {
    if more == [] {
      assert paths + more + [p] == paths + [p] + more;
    } else {
      hide Build, AddPath;
      var n := |more| - 1;
      var q, init := more[n], more[..n];
      AddLater(paths, init, p);
      BuildLast(paths + init + [q], p);
      BuildLast(paths + init, q);
      BuildLast(paths + init, p);
      BuildLast(paths + [p] + init, q);
      AddCommutes(Build(paths + init), q, p);
      assert more == init + [q];
      Associates(paths, init, [q]);
      Associates(paths + [p], init, [q]);
    }
  }

  lemma Associates(a: seq<seq<Seg>>, b: seq<seq<Seg>>, c: seq<seq<Seg>>)
    ensures a + b + c == a + (b + c)
  {
  }

  lemma BuildLast(paths: seq<seq<Seg>>, p: seq<Seg>)
    ensures Build(paths + [p]) == AddPath(Build(paths), p)
  {
    assert (paths + [p])[..|paths|] == paths;
  }

  lemma {:induction false} BuildSwaps(ps: seq<seq<Seg>>, qs: seq<seq<Seg>>)
    ensures Build(ps + qs) == Build(qs + ps)
  {
    if qs == [] {
      assert ps + qs == ps && qs + ps == ps;
    } else {
      var n := |qs| - 1;
      var q, init := qs[n], qs[..n];
      BuildSwaps(ps, init);
      BuildLast(ps + init, q);
      BuildLast(init + ps, q);
      AddLater(init, ps, q);
      assert ps + qs == ps + init + [q] && qs + ps == init + [q] + ps;
    }
  }

  /** Lists with the same paths, in any order and with any repetitions, build the same tree. */
  lemma BuildDependsOnSet(ps: seq<seq<Seg>>, qs: seq<seq<Seg>>)
    requires forall p :: p in ps <==> p in qs
    ensures Build(ps) == Build(qs)
  {
    BuildMore(ps, qs);
    BuildMore(qs, ps);
    BuildSwaps(ps, qs);
  }

  // ---- what attribute-only paths select

  predicate AttrOnly(p: seq<Seg>) {
    p != [] && forall i :: 0 <= i < |p| ==> p[i].Attr? && p[i].name != ""
  }

  /** The path leads into the tree, or past a leaf of it. */
  predicate Wanted(n: Node, q: seq<Seg>)
    decreases |q|
  {
    || q == [] || n.leaf
    || (q[0].Attr? && q[0].name in n.children && Wanted(n.children[q[0].name], q[1..]))
  }

  /** Attribute steps only, and every node below the root is a leaf or goes on. */
  predicate AttrTree(n: Node) {
    && n.idxs == map[]
    && (n.leaf ==> n.children == map[])
    && forall a :: a in n.children ==> AttrTree(n.children[a]) && (n.children[a].leaf || n.children[a].children != map[])
  }

  predicate AttrRest(p: seq<Seg>) {
    forall i :: 0 <= i < |p| ==> p[i].Attr? && p[i].name != ""
  }

  lemma {:induction false} AddKeepsTree(n: Node, p: seq<Seg>)
    requires AttrTree(n) && AttrRest(p)
    ensures AttrTree(AddPath(n, p)) && (AddPath(n, p).leaf || AddPath(n, p).children != map[])
    decreases |p|
  {
    if !n.leaf && p != [] {
      AddKeepsTree(Below(n, SlotOf(p[0])), p[1..]);
      assert p[0].name in AddPath(n, p).children;
    }
  }

  /** Adding p makes wanted what lies on p or below it, and nothing else. */
  lemma {:induction false} WantedAdd(n: Node, p: seq<Seg>, q: seq<Seg>)
    requires AttrTree(n) && AttrRest(p) && AttrRest(q)
    ensures Wanted(AddPath(n, p), q) <==> Wanted(n, q) || p <= q || q <= p
    decreases |p|
  {
    if !n.leaf && p != [] && q != [] {
      Heads(p, q);
      if p[0] == q[0] {
        WantedAdd(Below(n, SlotOf(p[0])), p[1..], q[1..]);
        WantedEmpty(q[1..]);
      }
    }
  }

  lemma WantedEmpty(q: seq<Seg>)
    ensures Wanted(EMPTY, q) <==> q == []
  {
  }

  lemma Heads(p: seq<Seg>, q: seq<Seg>)
    requires p != [] && q != []
    ensures p <= q <==> p[0] == q[0] && p[1..] <= q[1..]
    ensures q <= p <==> p[0] == q[0] && q[1..] <= p[1..]
  {
    assert p == [p[0]] + p[1..] && q == [q[0]] + q[1..];
  }

  lemma NothingWanted(q: seq<Seg>)
    requires q != []
    ensures AttrTree(EMPTY) && !Wanted(EMPTY, q)
  {
  }

  lemma AddNotLeaf(n: Node, p: seq<Seg>)
    requires !n.leaf && p != []
    ensures !AddPath(n, p).leaf
  {
  }

  predicate AllAttr(paths: seq<seq<Seg>>) {
    forall p :: p in paths ==> AttrOnly(p)
  }

  /** The tree wants exactly what is above or below a requested path. */
  lemma {:induction false} WantedBuild(paths: seq<seq<Seg>>, q: seq<Seg>)
    requires AllAttr(paths) && AttrOnly(q)
    ensures AttrTree(Build(paths)) && !Build(paths).leaf && (paths != [] ==> Build(paths).children != map[])
    ensures Wanted(Build(paths), q) <==> exists p :: p in paths && (p <= q || q <= p)
  {
    hide AttrTree, Wanted, AddPath;
    NothingWanted(q);
    if paths != [] {
      var n := |paths| - 1;
      var init, last := paths[..n], paths[n];
      assert last in paths && paths == init + [last];
      WantedBuild(init, q);
      AddKeepsTree(Build(init), last);
      WantedAdd(Build(init), last, q);
      AddNotLeaf(Build(init), last);
      assert forall p :: p in paths <==> p in init || p == last;
    }
  }

  /** Projection keeps what resolves and is wanted. */
  lemma {:induction false} ProjectKeeps(v: Value, n: Node, q: seq<Seg>)
    requires AttrTree(n) && AttrRest(q) && (n.leaf || n.children != map[])
    ensures GetAt(Project(v, n), q).Some? <==> GetAt(v, q).Some? && Wanted(n, q)
    decreases |q|
  {
    if !n.leaf && q != [] && v.M? {
      var a := q[0].name;
      if a in n.children && a in v.fields {
        ProjectKeeps(v.fields[a], n.children[a], q[1..]);
      }
    }
  }

  /** At a requested path and below it the value is the item's own. */
  lemma {:induction false} ProjectExact(v: Value, n: Node, p: seq<Seg>, below: seq<Seg>)
    requires AttrTree(n) && AttrRest(p) && Ends(n, p) && (n.leaf || n.children != map[])
    ensures GetAt(Project(v, n), p + below) == GetAt(v, p + below)
    decreases |p|
  {
    if n.leaf || p == [] {
    } else {
      var q := p + below;
      assert q[0] == p[0] && q[1..] == p[1..] + below;
      if v.M? && p[0].name in v.fields {
        ProjectExact(v.fields[p[0].name], n.children[p[0].name], p[1..], below);
      }
    }
  }

  /** The path comes to a leaf. */
  predicate Ends(n: Node, p: seq<Seg>)
    decreases |p|
  {
    n.leaf || (p != [] && p[0].Attr? && p[0].name in n.children && Ends(n.children[p[0].name], p[1..]))
  }

  lemma {:induction false} AddEnds(n: Node, p: seq<Seg>)
    requires AttrRest(p)
    ensures Ends(AddPath(n, p), p)
    decreases |p|
  {
    if !n.leaf && p != [] {
      AddEnds(Below(n, SlotOf(p[0])), p[1..]);
    }
  }

  /** Every requested path, and everything below it, resolves the same in the projected
      item as in the item. */
  lemma ProjectionResolves(paths: seq<seq<Seg>>, item: Item, p: seq<Seg>, below: seq<Seg>)
    requires AllAttr(paths) && p in paths
    ensures GetPath(Apply(Build(paths), item), p + below) == GetPath(item, p + below)
  {
    var root, q := Build(paths), p + below;
    WantedBuild(paths, p);
    AddAgain(paths, p);
    AddEnds(root, p);
    assert AddPath(root, p) == root;
    assert q[0] == p[0] && q[1..] == p[1..] + below;
    var a := p[0].name;
    if a in item {
      assert a in root.children;
      ProjectExact(item[a], root.children[a], p[1..], below);
    }
  }

  /** Nothing else is there: an attribute path resolves in the projected item exactly if
      it resolves in the item and lies above or below a requested path. */
  lemma ProjectionKeepsOnly(paths: seq<seq<Seg>>, item: Item, q: seq<Seg>)
    requires AllAttr(paths) && AttrOnly(q)
    ensures GetPath(Apply(Build(paths), item), q).Some? <==>
              GetPath(item, q).Some? && exists p :: p in paths && (p <= q || q <= p)
  {
    var root, a := Build(paths), q[0].name;
    WantedBuild(paths, q);
    if a in item && a in root.children {
      ProjectKeeps(item[a], root.children[a], q[1..]);
    }
  }

  lemma {:induction false} ProjectTwice(v: Value, n: Node)
    requires AttrTree(n)
    ensures Project(Project(v, n), n) == Project(v, n)
    decreases v
  {
    if n.children != map[] && v.M? {
      var once := Project(v, n);
      forall a | a in once.fields
        ensures Project(once.fields[a], n.children[a]) == once.fields[a]
      {
        ProjectTwice(v.fields[a], n.children[a]);
      }
      assert Project(once, n).fields == once.fields;
    }
  }

  /** Projecting twice is projecting once. */
  lemma ProjectionIdempotent(paths: seq<seq<Seg>>, item: Item)
    requires AllAttr(paths)
    ensures Apply(Build(paths), Apply(Build(paths), item)) == Apply(Build(paths), item)
  {
    var root := Build(paths);
    WantedBuild(paths, [Attr("x")]);
    var once := Apply(root, item);
    forall a | a in once
      ensures Project(once[a], root.children[a]) == once[a]
    {
      ProjectTwice(item[a], root.children[a]);
    }
    assert Apply(root, once) == once;
  }

  // ---- list indices

  /** How many of the requested indices are below i. */
  function Rank(idxs: map<nat, Node>, i: nat): (r: nat)
    ensures r <= i
  {
    if i == 0 then 0 else Rank(idxs, i - 1) + if i - 1 in idxs then 1 else 0
  }

  lemma {:induction false} RankGrows(idxs: map<nat, Node>, i: nat, j: nat)
    requires i <= j
    ensures Rank(idxs, i) <= Rank(idxs, j)
    ensures i < j && i in idxs ==> Rank(idxs, i) < Rank(idxs, j)
  {
    if i < j {
      RankGrows(idxs, i, j - 1);
    }
  }

  /** No index is skipped below i exactly if i keeps its place. */
  lemma {:induction false} RankFull(idxs: map<nat, Node>, i: nat)
    ensures Rank(idxs, i) == i <==> forall j: nat :: j < i ==> j in idxs
  {
    if i > 0 {
      RankFull(idxs, i - 1);
    }
  }

  /** Element i of a list, if requested, moves to the number of requested ones below it. */
  lemma {:induction false} ListRelocates(v: Value, n: Node, k: nat)
    requires v.L? && k <= |v.list|
    ensures |ProjectList(v, n, k)| == Rank(n.idxs, k)
    ensures forall i: nat :: i < k && i in n.idxs ==>
              Rank(n.idxs, i) < Rank(n.idxs, k) && ProjectList(v, n, k)[Rank(n.idxs, i)] == Project(v.list[i], n.idxs[i])
  {
    hide Project;
    if k > 0 {
      ListRelocates(v, n, k - 1);
    }
  }

  /** A node that picks elements of a list. */
  predicate Picks(n: Node) { n.children == map[] && n.idxs != map[] }

  /** Where a path of the item is found in the projection: an index moves where its node
      picks elements; elsewhere the value is kept whole or by name. */
  function Moved(n: Node, p: seq<Seg>): (q: seq<Seg>)
    ensures |q| == |p|
    decreases |p|
  {
    if p == [] then p
    else
      match p[0]
      case Attr(a) => if a in n.children then [p[0]] + Moved(n.children[a], p[1..]) else p
      case Index(i) =>
        if Picks(n) && i in n.idxs then [Index(Rank(n.idxs, i))] + Moved(n.idxs[i], p[1..]) else p
  }

  /** The path comes to a leaf, or to an index where the node keeps lists whole. */
  predicate Requested(n: Node, p: seq<Seg>)
    decreases |p|
  {
    || (n.leaf && n.children == map[] && n.idxs == map[])
    || (p != [] &&
        match p[0]
        case Attr(a) => a in n.children && Requested(n.children[a], p[1..])
        case Index(i) => n.children != map[] || (i in n.idxs && Requested(n.idxs[i], p[1..])))
  }

  /** Every requested path, and everything below it, is found where it has moved to. */
  lemma {:induction false} ProjectMoves(v: Value, n: Node, p: seq<Seg>, below: seq<Seg>)
    requires Requested(n, p)
    ensures GetAt(Project(v, n), Moved(n, p) + below) == GetAt(v, p + below)
    decreases |p|
  {
    if n.leaf && n.children == map[] && n.idxs == map[] {
      MovedLeaf(n, p);
    } else {
      var q, m := p + below, Moved(n, p) + below;
      assert q[0] == p[0] && q[1..] == p[1..] + below;
      match p[0] {
        case Attr(a) =>
          assert m[0] == p[0] && m[1..] == Moved(n.children[a], p[1..]) + below;
          if v.M? && a in v.fields {
            ProjectMoves(v.fields[a], n.children[a], p[1..], below);
          }
        case Index(i) =>
          if n.children == map[] {
            assert m[0] == Index(Rank(n.idxs, i)) && m[1..] == Moved(n.idxs[i], p[1..]) + below;
          }
          if n.children == map[] && v.L? {
            ListRelocates(v, n, |v.list|);
            if i < |v.list| {
              ProjectMoves(v.list[i], n.idxs[i], p[1..], below);
            } else {
              RankGrows(n.idxs, |v.list|, i);
            }
          }
      }
    }
  }

  lemma MovedLeaf(n: Node, p: seq<Seg>)
    requires n.children == map[] && n.idxs == map[]
    ensures Moved(n, p) == p
  {
  }

  /** No index on the path has an unrequested one below it. */
  predicate InPlace(n: Node, p: seq<Seg>)
    decreases |p|
  {
    p == [] ||
    match p[0]
    case Attr(a) => a in n.children ==> InPlace(n.children[a], p[1..])
    case Index(i) =>
      Picks(n) && i in n.idxs ==> (forall j: nat :: j < i ==> j in n.idxs) && InPlace(n.idxs[i], p[1..])
  }

  lemma {:induction false} InPlaceStays(n: Node, p: seq<Seg>)
    ensures InPlace(n, p) <==> Moved(n, p) == p
    decreases |p|
  {
    if p != [] {
      assert p == [p[0]] + p[1..];
      match p[0] {
        case Attr(a) =>
          if a in n.children {
            InPlaceStays(n.children[a], p[1..]);
            assert Moved(n, p)[1..] == Moved(n.children[a], p[1..]);
          }
        case Index(i) =>
          if Picks(n) && i in n.idxs {
            InPlaceStays(n.idxs[i], p[1..]);
            RankFull(n.idxs, i);
            assert Moved(n, p)[1..] == Moved(n.idxs[i], p[1..]);
          }
      }
    }
  }

  /** A value with something at the path and lists that end there. */
  function Along(p: seq<Seg>): Value
    decreases |p|
  {
    if p == [] then S("x")
    else
      match p[0]
      case Attr(a) => M(map[a := Along(p[1..])])
      case Index(i) => L(seq(i, _ => Null) + [Along(p[1..])])
  }

  lemma {:induction false} AlongResolves(p: seq<Seg>)
    ensures GetAt(Along(p), p).Some?
    decreases |p|
  {
    if p != [] {
      AlongResolves(p[1..]);
    }
  }

  /** On that value a path that moves is not found at its old place. */
  lemma {:induction false} AlongLoses(n: Node, p: seq<Seg>)
    requires Requested(n, p) && !InPlace(n, p)
    ensures GetAt(Project(Along(p), n), p).None?
    decreases |p|
  {
    var v := Along(p);
    match p[0] {
      case Attr(a) =>
        if a in n.children {
          AlongLoses(n.children[a], p[1..]);
        }
      case Index(i) =>
        assert Picks(n) && i in n.idxs;
        ListRelocates(v, n, |v.list|);
        RankFull(n.idxs, i);
        if Rank(n.idxs, i) == i {
          AlongLoses(n.idxs[i], p[1..]);
        }
    }
  }

  /** Below every node that picks, the requested indices are 0 up to some number. */
  predicate Steady(n: Node) {
    && (forall a :: a in n.children ==> Steady(n.children[a]))
    && (n.children == map[] ==>
          && (forall i, j: nat :: i in n.idxs && j < i ==> j in n.idxs)
          && forall i :: i in n.idxs ==> Steady(n.idxs[i]))
  }

  predicate SameTwice(v: Value, n: Node) { Project(Project(v, n), n) == Project(v, n) }

  lemma {:induction false} SteadyTwice(v: Value, n: Node)
    requires Steady(n)
    ensures SameTwice(v, n)
    decreases v, 1, 0
  {
    if n.children != map[] && v.M? {
      SteadyFields(v, n);
    } else if Picks(n) && v.L? {
      SteadyElems(v, n);
    }
  }

  lemma {:induction false} SteadyFields(v: Value, n: Node)
    requires Steady(n) && n.children != map[] && v.M?
    ensures SameTwice(v, n)
    decreases v, 0, 0
  {
    var once := Project(v, n);
    forall a | a in once.fields
      ensures Project(once.fields[a], n.children[a]) == once.fields[a]
    {
      SteadyTwice(v.fields[a], n.children[a]);
    }
    assert Project(once, n).fields == once.fields;
  }

  lemma {:induction false} SteadyElems(v: Value, n: Node)
    requires Steady(n) && Picks(n) && v.L?
    ensures SameTwice(v, n)
    decreases v, 0, |v.list| + 1
  {
    hide Project, ProjectList, Steady;
    PickedList(v, n);
    var once := Project(v, n);
    PickedList(once, n);
    RankGrows(n.idxs, 0, |v.list|);
    SteadyPrefix(v, n, |once.list|);
  }

  /** A steady pick is a prefix, each element projected in its place. */
  lemma {:induction false} SteadyPrefix(v: Value, n: Node, k: nat)
    requires Steady(n) && Picks(n) && v.L? && Project(v, n).L? && k <= |Project(v, n).list| == Rank(n.idxs, |v.list|)
    ensures ProjectList(Project(v, n), n, k) == Project(v, n).list[..k]
    decreases v, 0, k
  {
    hide Project, Rank;
    if k > 0 {
      var once := Project(v, n);
      SteadyPrefix(v, n, k - 1);
      InRange(n.idxs, k - 1, |v.list|);
      PickedAt(v, n, k - 1);
      SteadyTwice(v.list[k - 1], n.idxs[k - 1]);
      assert once.list[..k] == once.list[..k - 1] + [once.list[k - 1]];
    }
  }

  /** Where no index below i is skipped, element i stays in its place. */
  lemma PickedAt(v: Value, n: Node, i: nat)
    requires v.L? && Picks(n) && i < |v.list| && i in n.idxs && forall j: nat :: j < i ==> j in n.idxs
    ensures Project(v, n).L? && i < |Project(v, n).list| && Project(v, n).list[i] == Project(v.list[i], n.idxs[i])
  {
    hide Project, ProjectList;
    RankFull(n.idxs, i);
    PickedList(v, n);
  }

  /** The first so many indices of an initial segment are requested. */
  lemma {:induction false} InRange(idxs: map<nat, Node>, i: nat, k: nat)
    requires (forall i, j: nat :: i in idxs && j < i ==> j in idxs) && i < Rank(idxs, k)
    ensures i in idxs && i < k && forall j: nat :: j < i ==> j in idxs
  {
    if k - 1 in idxs {
      RankFull(idxs, k - 1);
    } else {
      InRange(idxs, i, k - 1);
    }
  }

  /** What does not come out the same when projected twice. */
  ghost predicate Unsteady(n: Node) {
    exists v :: !SameTwice(v, n)
  }

  lemma {:induction false} UnsteadyFails(n: Node)
    requires !Steady(n)
    ensures Unsteady(n)
  {
    if a :| a in n.children && !Steady(n.children[a]) {
      UnsteadyFails(n.children[a]);
      var w :| !SameTwice(w, n.children[a]);
      var v := M(map[a := w]);
      assert Project(v, n).fields[a] == Project(w, n.children[a]);
      assert Project(Project(v, n), n).fields[a] != Project(v, n).fields[a];
      assert !SameTwice(v, n);
    } else if i, j: nat :| i in n.idxs && j < i && j !in n.idxs {
      GapFails(n, i, j);
    } else {
      var i :| i in n.idxs && !Steady(n.idxs[i]);
      UnsteadyFails(n.idxs[i]);
      var w :| !SameTwice(w, n.idxs[i]);
      ElementFails(n, i, w);
    }
  }

  /** With a gap below i a list that ends at i loses elements a second time. */
  lemma GapFails(n: Node, i: nat, j: nat)
    requires n.children == map[] && i in n.idxs && j < i && j !in n.idxs
    ensures Unsteady(n)
  {
    hide Project;
    var v := L(seq(i + 1, _ => Null));
    PickedList(v, n);
    var once := Project(v, n);
    PickedList(once, n);
    RankFull(n.idxs, i);
    var m := Rank(n.idxs, i + 1);
    RankGrows(n.idxs, m, i);
    assert |once.list| == m && |Project(once, n).list| == Rank(n.idxs, m) < m;
    assert !SameTwice(v, n);
  }

  lemma PickedList(v: Value, n: Node)
    requires v.L? && Picks(n)
    ensures Project(v, n) == L(ProjectList(v, n, |v.list|)) && |ProjectList(v, n, |v.list|)| == Rank(n.idxs, |v.list|)
    ensures forall i: nat :: i < |v.list| && i in n.idxs ==>
              Rank(n.idxs, i) < Rank(n.idxs, |v.list|) && ProjectList(v, n, |v.list|)[Rank(n.idxs, i)] == Project(v.list[i], n.idxs[i])
  {
    ListRelocates(v, n, |v.list|);
  }

  lemma ElementFails(n: Node, i: nat, w: Value)
    requires n.children == map[] && (forall i, j: nat :: i in n.idxs && j < i ==> j in n.idxs) && i in n.idxs
    requires !SameTwice(w, n.idxs[i])
    ensures Unsteady(n)
  {
    hide Project, ProjectList;
    var v := L(seq(i, _ => Null) + [w]);
    var once := Project(v, n);
    assert v.list[i] == w;
    PickedAt(v, n, i);
    PickedAt(once, n, i);
    assert Project(once, n).list[i] == Project(once.list[i], n.idxs[i]);
    assert !SameTwice(v, n);
  }

  /** Projecting twice is projecting once, on every value, if and only if the requested
      indices of each list form an initial segment. */
  lemma ProjectTwiceIff(n: Node)
    ensures (forall v :: SameTwice(v, n)) <==> Steady(n)
  {
    hide SameTwice, Steady;
    if Steady(n) {
      forall v
        ensures SameTwice(v, n)
      {
        SteadyTwice(v, n);
      }
    } else {
      UnsteadyFails(n);
    }
  }

  // ---- the same for whole projections

  predicate NamedPath(p: seq<Seg>) {
    p != [] && p[0].Attr? && forall i :: 0 <= i < |p| && p[i].Attr? ==> p[i].name != ""
  }

  predicate NamedRest(p: seq<Seg>) {
    forall i :: 0 <= i < |p| && p[i].Attr? ==> p[i].name != ""
  }

  /** Leaves have nothing below them. */
  predicate Bare(n: Node) {
    && (n.leaf ==> n.children == map[] && n.idxs == map[])
    && (forall a :: a in n.children ==> Bare(n.children[a])) && forall i :: i in n.idxs ==> Bare(n.idxs[i])
  }

  lemma {:induction false} AddBare(n: Node, p: seq<Seg>)
    requires Bare(n)
    ensures Bare(AddPath(n, p))
    decreases |p|
  {
    if !n.leaf && p != [] {
      assert Bare(EMPTY);
      AddBare(Below(n, SlotOf(p[0])), p[1..]);
    }
  }

  lemma {:induction false} AddRequests(n: Node, p: seq<Seg>)
    requires Bare(n) && NamedRest(p)
    ensures Requested(AddPath(n, p), p)
    decreases |p|
  {
    if !n.leaf && p != [] {
      assert Bare(EMPTY);
      AddRequests(Below(n, SlotOf(p[0])), p[1..]);
    }
  }

  /** A requested path stays requested when others are added. */
  lemma {:induction false} RequestedStays(n: Node, p: seq<Seg>, q: seq<Seg>)
    requires Bare(n) && NamedRest(p) && NamedRest(q) && Requested(n, p)
    ensures Requested(AddPath(n, q), p)
    decreases |p|
  {
    if !n.leaf && q != [] && p != [] {
      var s, t := SlotOf(p[0]), SlotOf(q[0]);
      BelowWith(n, t, AddPath(Below(n, t), q[1..]), s);
      if s == t && !(p[0].Index? && n.children != map[]) {
        RequestedStays(Below(n, s), p[1..], q[1..]);
      }
    }
  }

  lemma {:induction false} BuildRequests(paths: seq<seq<Seg>>, p: seq<Seg>)
    requires (forall q :: q in paths ==> NamedPath(q)) && p in paths
    ensures Bare(Build(paths)) && Requested(Build(paths), p)
  {
    hide Requested, Bare;
    var n := |paths| - 1;
    var init, last := paths[..n], paths[n];
    assert paths == init + [last] && last in paths;
    BuildBare(init);
    AddBare(Build(init), last);
    if p in init {
      BuildRequests(init, p);
      RequestedStays(Build(init), p, last);
    } else {
      AddRequests(Build(init), last);
    }
  }

  lemma {:induction false} BuildBare(paths: seq<seq<Seg>>)
    ensures Bare(Build(paths))
  {
    if paths != [] {
      BuildBare(paths[..|paths| - 1]);
      AddBare(Build(paths[..|paths| - 1]), paths[|paths| - 1]);
    }
  }

  lemma {:induction false} BuildRoot(paths: seq<seq<Seg>>)
    requires forall q :: q in paths ==> NamedPath(q)
    ensures !Build(paths).leaf && Build(paths).idxs == map[] && (paths != [] ==> Build(paths).children != map[])
  {
    if paths != [] {
      var n := |paths| - 1;
      assert paths[n] in paths;
      BuildRoot(paths[..n]);
      assert paths[n][0].name in Build(paths).children;
    }
  }

  lemma ApplyProjects(paths: seq<seq<Seg>>, item: Item)
    requires (forall q :: q in paths ==> NamedPath(q)) && paths != []
    ensures Project(M(item), Build(paths)) == M(Apply(Build(paths), item))
  {
    BuildRoot(paths);
    assert Apply(Build(paths), item) == Project(M(item), Build(paths)).fields;
  }

  /** Relocation: every requested path, list indices included, and everything below it is
      found in the projected item where it has moved to. */
  lemma ProjectionMoves(paths: seq<seq<Seg>>, item: Item, p: seq<Seg>, below: seq<Seg>)
    requires (forall q :: q in paths ==> NamedPath(q)) && p in paths
    ensures GetPath(Apply(Build(paths), item), Moved(Build(paths), p) + below) == GetPath(item, p + below)
  {
    hide Project, Apply;
    BuildRequests(paths, p);
    ProjectMoves(M(item), Build(paths), p, below);
    ApplyProjects(paths, item);
  }

  predicate ResolvesSame(paths: seq<seq<Seg>>, item: Item, p: seq<Seg>) {
    GetPath(Apply(Build(paths), item), p) == GetPath(item, p)
  }

  /** A requested path resolves identically in every item if and only if each index on it
      has all smaller ones of its list requested too. */
  lemma ProjectionResolvesIff(paths: seq<seq<Seg>>, p: seq<Seg>)
    requires (forall q :: q in paths ==> NamedPath(q)) && p in paths
    ensures (forall item :: ResolvesSame(paths, item, p)) <==> InPlace(Build(paths), p)
  {
    hide Project, Apply, Build;
    var root := Build(paths);
    BuildRequests(paths, p);
    if InPlace(root, p) {
      InPlaceStays(root, p);
      forall item
        ensures ResolvesSame(paths, item, p)
      {
        ProjectionMoves(paths, item, p, []);
        assert p + [] == p;
      }
    } else {
      AlongLoses(root, p);
      AlongResolves(p);
      ApplyProjects(paths, Along(p).fields);
      assert !ResolvesSame(paths, Along(p).fields, p);
    }
  }

  predicate AppliesOnce(root: Node, item: Item) { Apply(root, Apply(root, item)) == Apply(root, item) }

  /** Projecting every item twice is projecting it once if and only if the requested
      indices of each list form an initial segment. */
  lemma ProjectionTwiceIff(paths: seq<seq<Seg>>)
    ensures (forall item :: AppliesOnce(Build(paths), item)) <==>
            forall a :: a in Build(paths).children ==> Steady(Build(paths).children[a])
  {
    hide Project, Steady, Build;
    var root := Build(paths);
    if forall a :: a in root.children ==> Steady(root.children[a]) {
      forall item
        ensures AppliesOnce(root, item)
      {
        forall a | a in root.children && a in item
          ensures Project(Project(item[a], root.children[a]), root.children[a]) == Project(item[a], root.children[a])
        {
          ProjectTwiceIff(root.children[a]);
          assert SameTwice(item[a], root.children[a]);
        }
        assert Apply(root, Apply(root, item)) == Apply(root, item);
      }
    } else {
      var a :| a in root.children && !Steady(root.children[a]);
      ProjectTwiceIff(root.children[a]);
      var w :| !SameTwice(w, root.children[a]);
      var item: Item := map[a := w];
      assert Apply(root, item)[a] == Project(w, root.children[a]);
      assert Apply(root, Apply(root, item))[a] == Project(Project(w, root.children[a]), root.children[a]);
      assert !AppliesOnce(root, item);
    }
  }

  /** With a list index neither law holds: a[1] is found at a[0] afterwards, and a second
      projection loses it. */
  lemma IndexPathsMove()
    ensures var item: Item := map["a" := L([S("x"), S("y")])];
            var root := Build([[Attr("a"), Index(1)]]);
            && Apply(root, item) == map["a" := L([S("y")])]
            && Apply(root, Apply(root, item)) == map["a" := L([])]
  {
    var item: Item := map["a" := L([S("x"), S("y")])];
    var p := [Attr("a"), Index(1)];
    var leaf := Node(true, map[], map[]);
    var list := Node(false, map[], map[1 := leaf]);
    var paths: seq<seq<Seg>> := [p];
    assert paths[..0] == [];
    assert p[1..] == [Index(1)] && p[1..][1..] == [];
    assert AddPath(EMPTY, p[1..]) == list;
    var root := Build(paths);
    assert Below(EMPTY, Named("a")) == EMPTY && Build(paths[..0]) == EMPTY;
    assert root == AddPath(EMPTY, p);
    assert root.children == map["a" := list];
    var v := item["a"];
    assert ProjectList(v, list, 1) == [];
    assert ProjectList(v, list, 2) == [S("y")];
    var w := L([S("y")]);
    assert ProjectList(w, list, 1) == [];
    assert Project(v, list) == w && Project(w, list) == L([]);
    assert Apply(root, item) == map["a" := w];
  }
}
