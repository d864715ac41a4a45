/** Nested writes as the source makes them: on objects, in place, with a previous image
    that copies the top level only. Where no object is reached on two ways they are the
    writes on values of DocPath, and the two images those of Updates. */
module InPlace {
  import opened Values
  import opened Parser
  import DocPath
  import opened Updates

  datatype Kind = Map | List | Plain

  /** A typed value as an object; `fields` and `list` are what a map and a list hold. */
  class Cell {
    var kind: Kind
    var fields: map<string, Cell>
    var list: seq<Cell>
    ghost var repr: set<Cell>
    ghost var model: Value

    /** The objects below are the cell's own, and reached on one way each. */
    ghost predicate Valid()
      reads this, repr
      decreases repr
    {
      && this in repr
      && (forall a :: a in fields ==> Owns(fields[a]) && fields[a].Valid())
      && (forall i :: 0 <= i < |list| ==> Owns(list[i]) && list[i].Valid())
      && (forall a, b :: a in fields && b in fields && a != b ==> fields[a].repr !! fields[b].repr)
      && (forall i, j :: 0 <= i < j < |list| ==> list[i].repr !! list[j].repr)
      && Models()
    }

    ghost predicate Owns(c: Cell)
      reads this, repr
    {
      c in repr && c.repr <= repr && this !in c.repr
    }

    /** The cell stands for `model`. */
    ghost predicate Models()
      reads this, fields.Values, list
    {
      match kind
      case Map => list == [] && model.M? && model.fields.Keys == fields.Keys && forall a :: a in fields ==> model.fields[a] == fields[a].model
      case List => fields == map[] && model.L? && |model.list| == |list| && forall i :: 0 <= i < |list| ==> model.list[i] == list[i].model
      case Plain => list == [] && fields == map[] && !model.M? && !model.L?
    }

    method PutField(name: string, x: Cell)
      requires Valid() && x.Valid() && repr !! x.repr && kind == Map
      modifies this
      ensures Valid() && repr == old(repr) + x.repr && model == M(old(model.fields)[name := x.model])
    {
      fields := fields[name := x];
      repr, model := repr + x.repr, M(model.fields[name := x.model]);
    }

    method PutElem(i: nat, x: Cell)
      requires Valid() && x.Valid() && repr !! x.repr && kind == List && i < |list|
      modifies this
      ensures Valid() && repr == old(repr) + x.repr && model == L(old(model.list)[i := x.model])
    {
      list := list[i := x];
      repr, model := repr + x.repr, L(model.list[i := x.model]);
    }

    method AddElem(x: Cell)
      requires Valid() && x.Valid() && repr !! x.repr && kind == List
      modifies this
      ensures Valid() && repr == old(repr) + x.repr && model == L(old(model.list) + [x.model])
    {
      list := list + [x];
      repr, model := repr + x.repr, L(model.list + [x.model]);
    }

    /** The child has changed, and may have cells of its own that are new here. */
    ghost method RefitField(name: string)
      requires this in repr && kind == Map && list == [] && name in fields && model.M? && model.fields.Keys == fields.Keys
      requires forall a :: a in fields ==> fields[a] in repr && fields[a].Valid() && this !in fields[a].repr
      requires forall a :: a in fields && a != name ==> fields[a].repr <= repr && model.fields[a] == fields[a].model
      requires forall a, b :: a in fields && b in fields && a != b ==> fields[a].repr !! fields[b].repr
      modifies this`repr, this`model
      ensures Valid() && repr == old(repr) + fields[name].repr
      ensures model == M(old(model.fields)[name := fields[name].model])
    {
      repr, model := repr + fields[name].repr, M(model.fields[name := fields[name].model]);
      forall a | a in fields
        ensures Owns(fields[a]) && fields[a].Valid() && model.fields[a] == fields[a].model
      {
      }
    }

    ghost method RefitElem(i: nat)
      requires this in repr && kind == List && fields == map[] && i < |list| && model.L? && |model.list| == |list|
      requires forall j :: 0 <= j < |list| ==> list[j] in repr && list[j].Valid() && this !in list[j].repr
      requires forall j :: 0 <= j < |list| && j != i ==> list[j].repr <= repr && model.list[j] == list[j].model
      requires forall j, k :: 0 <= j < k < |list| ==> list[j].repr !! list[k].repr
      modifies this`repr, this`model
      ensures Valid() && repr == old(repr) + list[i].repr && model == L(old(model.list)[i := list[i].model])
    {
      repr, model := repr + list[i].repr, L(model.list[i := list[i].model]);
    }

    method SetInField(name: string, segs: seq<Seg>, x: Cell) returns (ok: bool)
      requires Valid() && x.Valid() && repr !! x.repr && segs != [] && kind == Map && name in fields
      modifies repr
      ensures Valid() && repr <= old(repr) + x.repr && (!ok ==> model == old(model) && repr == old(repr))
      ensures var child := DocPath.SetAt(old(model.fields[name]), segs, x.model);
              if ok then child.Some? && model == M(old(model.fields)[name := child.value]) else child.None?
      decreases |segs|, 2
    {
      hide DocPath.SetAt;
      var c := fields[name];
      assert list == [] && forall b :: b in fields && b != name ==> fields[b].repr !! c.repr + x.repr;
      SameField(model.fields, name, c.model);
      ok := c.SetAt(segs, x);
      assert forall b :: b in fields && b != name ==> fields[b].Valid() && fields[b].repr !! c.repr;
      RefitField(name);
    }

    method SetInElem(i: nat, segs: seq<Seg>, x: Cell) returns (ok: bool)
      requires Valid() && x.Valid() && repr !! x.repr && segs != [] && kind == List && i < |list|
      modifies repr
      ensures Valid() && repr <= old(repr) + x.repr && (!ok ==> model == old(model) && repr == old(repr))
      ensures var child := DocPath.SetAt(old(model.list[i]), segs, x.model);
              if ok then child.Some? && model == L(old(model.list)[i := child.value]) else child.None?
      decreases |segs|, 2
    {
      hide DocPath.SetAt;
      var c := list[i];
      assert fields == map[] && forall j :: 0 <= j < |list| && j != i ==> list[j].repr !! c.repr + x.repr;
      ok := c.SetAt(segs, x);
      assert forall j :: 0 <= j < |list| && j != i ==> list[j].Valid() && list[j].repr !! c.repr;
      RefitElem(i);
    }

    /** `setAtDynamoValue`. */
    method SetAt(segs: seq<Seg>, x: Cell) returns (ok: bool)
      requires Valid() && x.Valid() && repr !! x.repr && segs != []
      modifies repr
      ensures Valid() && repr <= old(repr) + x.repr
      ensures DocPath.SetAt(old(model), segs, x.model) == if ok then Some(model) else None
      ensures !ok ==> model == old(model) && repr == old(repr)
      decreases |segs|, 1
    {
      match segs[0] {
        case Attr(name) =>
          if kind != Map || (|segs| > 1 && name !in fields) {
            return false;
          }
          if |segs| == 1 {
            PutField(name, x);
            return true;
          }
          ok := SetInField(name, segs[1..], x);
        case Index(i) =>
          if kind != List || (|segs| > 1 && i >= |list|) {
            return false;
          }
          if |segs| == 1 {
            if i < |list| {
              PutElem(i, x);
            } else {
              AddElem(x);
            }
            return true;
          }
          ok := SetInElem(i, segs[1..], x);
      }
    }

    method DropField(name: string)
      requires Valid() && kind == Map
      modifies this
      ensures Valid() && repr == old(repr) && model == M(old(model.fields) - {name})
    {
      fields := fields - {name};
      model := M(model.fields - {name});
    }

    method DropElem(i: nat)
      requires Valid() && kind == List && i < |list|
      modifies this
      ensures Valid() && repr == old(repr) && model == L(old(model.list)[..i] + old(model.list)[i + 1..])
    {
      list := list[..i] + list[i + 1..];
      model := L(model.list[..i] + model.list[i + 1..]);
    }

    method RemoveInField(name: string, segs: seq<Seg>)
      requires Valid() && segs != [] && kind == Map && name in fields
      modifies repr
      ensures Valid() && repr == old(repr)
      ensures model == M(old(model.fields)[name := DocPath.RemoveAt(old(model.fields[name]), segs)])
      decreases |segs|, 2
    {
      var c := fields[name];
      assert list == [] && forall b :: b in fields && b != name ==> fields[b].repr !! c.repr;
      c.RemoveAt(segs);
      assert forall b :: b in fields && b != name ==> fields[b].Valid();
      RefitField(name);
    }

    method RemoveInElem(i: nat, segs: seq<Seg>)
      requires Valid() && segs != [] && kind == List && i < |list|
      modifies repr
      ensures Valid() && repr == old(repr)
      ensures model == L(old(model.list)[i := DocPath.RemoveAt(old(model.list[i]), segs)])
      decreases |segs|, 2
    {
      var c := list[i];
      assert fields == map[] && forall j :: 0 <= j < |list| && j != i ==> list[j].repr !! c.repr;
      c.RemoveAt(segs);
      assert forall j :: 0 <= j < |list| && j != i ==> list[j].Valid();
      RefitElem(i);
    }

    /** `removeAtDynamoValue`: a missing step is passed over. */
    method RemoveAt(segs: seq<Seg>)
      requires Valid() && segs != []
      modifies repr
      ensures Valid() && repr == old(repr) && model == DocPath.RemoveAt(old(model), segs)
      decreases |segs|, 1
    {
      match segs[0] {
        case Attr(name) =>
          if kind != Map || name !in fields {
            return;
          }
          if |segs| == 1 {
            DropField(name);
          } else {
            RemoveInField(name, segs[1..]);
          }
        case Index(i) =>
          if kind != List || i >= |list| {
            return;
          }
          if |segs| == 1 {
            DropElem(i);
          } else {
            RemoveInElem(i, segs[1..]);
          }
      }
    }
  }

  // ---- attributes and the copy of the top level

  /** Trees of their own, within repr. */
  ghost predicate Rooted(repr: set<Cell>, cells: map<string, Cell>)
    reads repr
  {
    && (forall a :: a in cells ==> cells[a] in repr && cells[a].repr <= repr && cells[a].Valid())
    && (forall a, b :: a in cells && b in cells && a != b ==> cells[a].repr !! cells[b].repr)
  }

  /** The cells stand for these values. */
  ghost predicate Tells(cells: map<string, Cell>, values: Item)
    reads cells.Values
  {
    values.Keys == cells.Keys && forall a :: a in cells ==> values[a] == cells[a].model
  }

  /** Two maps that share whole attributes only. */
  ghost predicate Across(item: map<string, Cell>, before: map<string, Cell>)
    reads item.Values, before.Values
  {
    forall a, b :: a in item && b in before ==> (a == b && item[a] == before[b]) || item[a].repr !! before[b].repr
  }

  /** All but c are trees of their own within `rest`, and stand for their values. */
  ghost predicate Aside(rest: set<Cell>, cells: map<string, Cell>, values: Item, c: Cell)
    reads rest
  {
    && values.Keys == cells.Keys
    && (forall b :: b in cells && cells[b] != c ==>
          cells[b] in rest && cells[b].repr <= rest && cells[b].Valid() && values[b] == cells[b].model)
    && (forall a, b :: a in cells && b in cells && a != b && cells[a] != c && cells[b] != c ==> cells[a].repr !! cells[b].repr)
  }

  ghost predicate AcrossBut(rest: set<Cell>, item: map<string, Cell>, before: map<string, Cell>, c: Cell)
    reads rest
  {
    forall a, b :: a in item && b in before && item[a] in rest && before[b] in rest && item[a] != c && before[b] != c ==>
      (a == b && item[a] == before[b]) || item[a].repr !! before[b].repr
  }

  /** The cell has this name, if any. */
  predicate Only(cells: map<string, Cell>, a: string, c: Cell) {
    forall b :: b in cells && cells[b] == c ==> b == a
  }

  lemma SetAside(repr: set<Cell>, item: map<string, Cell>, after: Item, before: map<string, Cell>, shown: Item, a: string)
    requires Rooted(repr, item) && Tells(item, after) && Rooted(repr, before) && Tells(before, shown) && Across(item, before) && a in item
    ensures var c, rest := item[a], repr - item[a].repr;
            && Aside(rest, item, after, c) && Aside(rest, before, shown, c) && AcrossBut(rest, item, before, c)
            && Only(item, a, c) && Only(before, a, c)
  {
  }

  /** With c in order again, so is the whole. */
  lemma Rejoin(rest: set<Cell>, repr: set<Cell>, cells: map<string, Cell>, values: Item, values': Item, c: Cell, a: string)
    requires Aside(rest, cells, values, c) && c in repr && c.repr <= repr && c.Valid() && rest <= repr && rest !! c.repr
    requires values'.Keys == values.Keys && forall b :: b in cells && b != a ==> values'[b] == values[b]
    requires Only(cells, a, c) && (a in cells ==> if cells[a] == c then values'[a] == c.model else values'[a] == values[a])
    ensures Rooted(repr, cells) && Tells(cells, values')
  {
    hide Cell.Valid;
  }

  lemma RejoinAcross(rest: set<Cell>, item: map<string, Cell>, after: Item, before: map<string, Cell>, shown: Item, c: Cell, a: string)
    requires Aside(rest, item, after, c) && Aside(rest, before, shown, c) && AcrossBut(rest, item, before, c)
    requires Only(item, a, c) && Only(before, a, c) && rest !! c.repr
    ensures Across(item, before)
  {
  }

  lemma AsideKeys(rest: set<Cell>, cells: map<string, Cell>, values: Item, c: Cell)
    requires Aside(rest, cells, values, c)
    ensures values.Keys == cells.Keys
  {
  }

  lemma PutRooted(repr: set<Cell>, item: map<string, Cell>, after: Item, a: string, x: Cell)
    requires Rooted(repr, item) && Tells(item, after) && x.Valid() && x in x.repr && x.repr !! repr
    ensures Rooted(repr + x.repr, item[a := x]) && Tells(item[a := x], after[a := x.model])
  {
    hide Cell.Valid;
    forall b | b in item && b != a
      ensures item[b].repr !! x.repr
    {
      assert item[b].repr <= repr;
    }
  }

  lemma PutAcross(repr: set<Cell>, item: map<string, Cell>, before: map<string, Cell>, a: string, x: Cell)
    requires Rooted(repr, before) && Across(item, before) && x in x.repr && x.repr !! repr
    ensures Across(item[a := x], before) && (a in before ==> before[a] != x)
  {
    hide Cell.Valid;
    forall b | b in before
      ensures before[b].repr !! x.repr
    {
      assert before[b].repr <= repr;
    }
  }

  lemma RootedGrows(repr: set<Cell>, more: set<Cell>, cells: map<string, Cell>)
    requires Rooted(repr, cells) && repr <= more
    ensures Rooted(more, cells)
  {
  }

  lemma DropKeeps(repr: set<Cell>, item: map<string, Cell>, after: Item, before: map<string, Cell>, a: string)
    requires Rooted(repr, item) && Tells(item, after) && Across(item, before)
    ensures Rooted(repr, item - {a}) && Tells(item - {a}, after - {a}) && Across(item - {a}, before)
  {
  }

  /** An item under update: its attributes, and the copy of the top level that is kept as
      the previous image. Attributes that no entry has replaced are the same objects in both. */
  class Draft {
    var item: map<string, Cell>
    var before: map<string, Cell>
    ghost var repr: set<Cell>
    ghost var images: Images

    /** No object is reached from two attributes, or from the two images in two places. */
    ghost predicate Valid()
      reads this, repr
    {
      && Rooted(repr, item) && Rooted(repr, before) && Across(item, before)
      && Tells(item, images.after) && Tells(before, images.shown)
      && Shared()
    }

    ghost predicate Shared()
      reads this
    {
      forall a :: a in images.shared <==> a in item && a in before && item[a] == before[a]
    }

    constructor (item: map<string, Cell>, ghost cells: set<Cell>)
      requires Rooted(cells, item)
      ensures Valid() && this.item == item && images.after == images.shown && images.shared == item.Keys
    {
      this.item, before := item, item;
      repr := cells;
      images := Images(map a | a in item :: item[a].model, map a | a in item :: item[a].model, item.Keys);
    }

    /** A top-level write. */
    method Put(a: string, x: Cell)
      requires Valid() && x.Valid() && x.repr !! repr
      modifies this
      ensures Valid() && repr == old(repr) + x.repr
      ensures images == old(images).(after := old(images.after)[a := x.model], shared := old(images.shared) - {a})
    {
      hide Rooted, Across, Tells;
      assert x in x.repr;
      PutRooted(repr, item, images.after, a, x);
      PutAcross(repr, item, before, a, x);
      RootedGrows(repr, repr + x.repr, before);
      item := item[a := x];
      repr := repr + x.repr;
      images := images.(after := images.after[a := x.model], shared := images.shared - {a});
    }

    method Drop(a: string)
      requires Valid()
      modifies this
      ensures Valid() && repr == old(repr)
      ensures images == old(images).(after := old(images.after) - {a}, shared := old(images.shared) - {a})
    {
      hide Rooted, Across, Tells;
      DropKeeps(repr, item, images.after, before, a);
      item := item - {a};
      images := images.(after := images.after - {a}, shared := images.shared - {a});
    }

    /** All is in order within `rest`, that is but for the cell c of attribute a. */
    ghost predicate Loose(rest: set<Cell>, c: Cell, a: string)
      reads this, rest
    {
      && a in item && item[a] == c && c in repr && rest <= repr && Only(item, a, c) && Only(before, a, c)
      && Aside(rest, item, images.after, c) && Aside(rest, before, images.shown, c) && AcrossBut(rest, item, before, c)
      && Shared()
    }

    /** The cell has changed, and may have cells of its own that are new here. */
    ghost method Refit(rest: set<Cell>, c: Cell, a: string)
      requires c.Valid() && Loose(rest, c, a) && rest !! c.repr
      modifies this`repr, this`images
      ensures Valid() && images == Written(old(images), a, c.model) && repr == old(repr) + c.repr
    {
      hide Aside, AcrossBut, Rooted, Across, Tells;
      ghost var im := images;
      repr := repr + c.repr;
      images := Written(images, a, c.model);
      AsideKeys(rest, item, im.after, c);
      AsideKeys(rest, before, im.shown, c);
      RejoinAcross(rest, item, im.after, before, im.shown, c, a);
      Rejoin(rest, repr, item, im.after, images.after, c, a);
      Rejoin(rest, repr, before, im.shown, images.shown, c, a);
    }

    /** `applyNestedSet`: the write shows in the previous image if the attribute is shared. */
    method SetNested(segs: seq<Seg>, x: Cell) returns (ok: bool)
      requires Valid() && x.Valid() && x.repr !! repr && |segs| > 1 && segs[0].Attr?
      modifies this`repr, this`images, repr
      ensures Valid()
      ensures ok <==> DocPath.SetPath(old(images.after), segs, x.model).Some?
      ensures images == if ok then Written(old(images), segs[0].name, DocPath.SetAt(old(images.after)[segs[0].name], segs[1..], x.model).value)
                        else old(images)
    {
      hide DocPath.SetAt, Aside, AcrossBut, Across, Rooted;
      var a := segs[0].name;
      if a !in item {
        return false;
      }
      var c := item[a];
      ghost var im := images;
      Told(a);
      ghost var rest := repr - c.repr;
      IsLoose(a);
      ok := c.SetAt(segs[1..], x);
      Refit(rest, c, a);
      if !ok {
        Unwritten(im, a, c.model);
      }
    }

    lemma Told(a: string)
      requires Valid() && a in item
      ensures item[a].repr <= repr && item[a].Valid() && images.after[a] == item[a].model
      ensures a in images.shared ==> a in images.shown && images.shown[a] == item[a].model
    {
    }

    lemma IsLoose(a: string)
      requires Valid() && a in item
      ensures Loose(repr - item[a].repr, item[a], a)
    {
      SetAside(repr, item, images.after, before, images.shown, a);
    }

    /** `applyNestedRemove`. */
    method RemoveNested(segs: seq<Seg>)
      requires Valid() && |segs| > 1 && segs[0].Attr?
      modifies this`repr, this`images, repr
      ensures Valid()
      ensures images == if segs[0].name !in old(images.after) then old(images)
                        else Written(old(images), segs[0].name, DocPath.RemoveAt(old(images.after)[segs[0].name], segs[1..]))
    {
      hide DocPath.RemoveAt, Aside, AcrossBut, Across, Rooted;
      var a := segs[0].name;
      if a in item {
        var c := item[a];
        Told(a);
        ghost var rest := repr - c.repr;
        IsLoose(a);
        c.RemoveAt(segs[1..]);
        Refit(rest, c, a);
      }
    }
  }

  /** One entry more in the order: the images change as the draft's methods change them. */
  lemma EntryInPlace(lib: Lib, item: Item, updates: Updates, order: seq<string>, k: string)
    requires (forall j :: j in order ==> j in updates) && k in updates
    requires ImagesIn(lib, item, updates, order).Some?
    ensures forall j :: j in order + [k] ==> j in updates
    ensures ImagesIn(lib, item, updates, order + [k]) == Entered(lib, ImagesIn(lib, item, updates, order).value, k, updates[k])
  {
    hide AddTo, DeleteFrom, RhsValue;
    assert (order + [k])[..|order|] == order;
    SharedThere(lib, item, updates, order);
    var im, target := ImagesIn(lib, item, updates, order).value, Target(k, updates[k]);
    if updates[k].NestedRemove? && target !in im.after {
      assert im.after - {target} == im.after;
    }
  }

  /** What an entry makes of the images, in the terms of the draft's methods. */
  function Entered(lib: Lib, im: Images, key: string, op: Op): Option<Images>
    requires OpParsed(op)
  {
    match op
    case NestedSet(segs, rhs) =>
      var v := RhsValue(im.after, rhs);
      if v.None? || DocPath.SetPath(im.after, segs, v.value).None? then None
      else Some(Written(im, segs[0].name, DocPath.SetAt(im.after[segs[0].name], segs[1..], v.value).value))
    case NestedRemove(segs) =>
      Some(if segs[0].name !in im.after then im
           else Written(im, segs[0].name, DocPath.RemoveAt(im.after[segs[0].name], segs[1..])))
    case _ =>
      var e := EffectOf(lib, im.after, key, op);
      match e
      case Rejected => None
      case NewValue(v) => Some(im.(after := im.after[key := v], shared := im.shared - {key}))
      case Gone => Some(im.(after := im.after - {key}, shared := im.shared - {key}))
  }

  lemma {:induction false} SharedThere(lib: Lib, item: Item, updates: Updates, order: seq<string>)
    requires forall j :: j in order ==> j in updates
    ensures var im := ImagesIn(lib, item, updates, order);
            im.Some? ==> im.value.shared <= im.value.after.Keys && im.value.shared <= im.value.shown.Keys
  {
    hide AddTo, DeleteFrom, RhsValue;
    if order != [] {
      SharedThere(lib, item, updates, order[..|order| - 1]);
    }
  }

  /** One object under two names, as when an update stores the same value twice: a write
      below one of them is a write below the other. */
  method WriteShared(item: map<string, Cell>, a: string, b: string, segs: seq<Seg>, x: Cell) returns (ok: bool)
    requires a in item && b in item && item[a] == item[b] && item[a].Valid()
    requires x.Valid() && item[a].repr !! x.repr && segs != []
    modifies item[a].repr
    ensures DocPath.SetAt(old(item[b].model), segs, x.model) == if ok then Some(item[b].model) else None
  {
    ok := item[a].SetAt(segs, x);
  }

  /** Attribute a holds v, in the previous image too if it is shared. */
  function Written(im: Images, a: string, v: Value): Images {
    im.(after := im.after[a := v], shown := if a in im.shared then im.shown[a := v] else im.shown)
  }

  lemma Unwritten(im: Images, a: string, v: Value)
    requires a in im.after && im.after[a] == v && (a in im.shared ==> a in im.shown && im.shown[a] == v)
    ensures Written(im, a, v) == im
  {
  }

  lemma SameField(fields: map<string, Value>, name: string, v: Value)
    requires name in fields && fields[name] == v
    ensures fields[name := v] == fields
  {
  }
}
