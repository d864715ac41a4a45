/** What a request body says under a shape, told without decoding it: the decoder answers
    with a value exactly if the body says that value. */
module BodyMeaning {
  import opened Values
  import opened Decoding

  /** i is r without its fraction, or the nearest end of the 32-bit range. */
  predicate Nearest(f: Float, i: int) {
    && -0x8000_0000 <= i <= 0x7FFF_FFFF
    && match f
       case PlusInf => i == 0x7FFF_FFFF
       case MinusInf => i == -0x8000_0000
       case Finite(r) =>
         if r >= 2147483647.0 then i == 0x7FFF_FFFF
         else if r <= -2147483648.0 then i == -0x8000_0000
         else if r >= 0.0 then (i as real) <= r < (i as real) + 1.0
         else (i as real) - 1.0 < r <= (i as real)
  }

  /** The spellings of a flag. */
  function Spellings(flag: bool): seq<string> {
    if flag then ["true", "t", "yes", "y", "1"] else ["false", "f", "no", "n", "0"]
  }

  ghost predicate Says(lex: Lex, s: Shape, j: Json, d: Data)
    decreases j, 1
  {
    match j
    case JNull => d == Nil
    case JBool(flag) => s.BooleanShape? && d == Flag(flag)
    case JNumber(text) => s.IntegerShape? && d.Int? && Nearest(lex.number(text), d.i)
    case JString(text) =>
      || (s.StringShape? && d == Text(text))
      || (s.BooleanShape? && d.Flag? && lex.lower(text) in Spellings(d.flag))
    case JList(elems) =>
      s.ListShape? && d.List? && |d.elems| == |elems| && forall i :: 0 <= i < |elems| ==> Says(lex, s.member, elems[i], d.elems[i])
    case JObject(entries) => (s.MapShape? || s.StructureShape?) && d.Map? && EntriesSay(lex, s, j, d.entries)
  }

  /** The shape of the value under a name: any in a map, that of a known member in a structure. */
  function ShapeAt(s: Shape, name: string): Option<Shape>
    requires s.MapShape? || s.StructureShape?
  {
    if s.MapShape? then Some(s.value)
    else
      var m := FindMember(s.members, name);
      if m.Some? then Some(m.value.shape) else None
  }

  /** Every entry under a known name says something, and under each name it is the last one
      that counts; a null takes a member away, but stands in a map. */
  ghost predicate EntriesSay(lex: Lex, s: Shape, j: Json, d: map<string, Data>)
    requires (s.MapShape? || s.StructureShape?) && j.JObject?
    decreases j, 0
  {
    && (forall i :: 0 <= i < |j.entries| ==>
          var at := ShapeAt(s, j.entries[i].name); at.Some? ==> exists x :: Says(lex, at.value, j.entries[i].value, x))
    && (forall k :: k in d <==>
          var last := LastEntry(j.entries, |j.entries|, k);
          ShapeAt(s, k).Some? && last.Some? && (s.MapShape? || !last.value.JNull?))
    && (forall k, i :: k in d && 0 <= i < |j.entries| && IsLast(j.entries, i, k) ==>
          Says(lex, ShapeAt(s, k).value, j.entries[i].value, d[k]))
  }

  predicate IsLast(entries: seq<Entry>, i: nat, k: string)
    requires i < |entries|
  {
    entries[i].name == k && forall m :: i < m < |entries| ==> entries[m].name != k
  }

  // ---- the decoder answers this

  lemma NearestInteger(f: Float, i: int)
    ensures i == Integer(f) <==> Nearest(f, i)
  {
    if f.Finite? {
      IntegerExact(f);
    }
  }

  lemma {:induction false} LastOne(entries: seq<Entry>, n: nat, k: string, i: nat)
    requires i < n <= |entries| && entries[i].name == k && forall m :: i < m < n ==> entries[m].name != k
    ensures LastEntry(entries, n, k) == Some(entries[i].value)
  {
    if i < n - 1 {
      LastOne(entries, n - 1, k, i);
    }
  }

  lemma {:induction false} LastIndex(entries: seq<Entry>, n: nat, k: string) returns (i: nat)
    requires n <= |entries| && LastEntry(entries, n, k).Some?
    ensures i < n && entries[i].name == k && (forall m :: i < m < n ==> entries[m].name != k)
    ensures LastEntry(entries, n, k) == Some(entries[i].value)
  {
    if entries[n - 1].name == k {
      i := n - 1;
    } else {
      i := LastIndex(entries, n - 1, k);
    }
  }

  /** In a decoded map a key holds what its last entry decodes to. */
  lemma {:induction false} MapEntryWins(lex: Lex, s: Shape, j: Json, n: nat, k: string)
    requires s.MapShape? && j.JObject? && n <= |j.entries| && DecodeMap(lex, s, j, n).Ok?
    ensures var d, last := DecodeMap(lex, s, j, n).value, LastEntry(j.entries, n, k);
            && d.Map?
            && (k in d.entries <==> last.Some?)
            && (k in d.entries ==> Decode(lex, s.value, last.value) == Ok(d.entries[k]))
  {
    hide Decode;
    if n > 0 {
      MapEntryWins(lex, s, j, n - 1, k);
    }
  }

  lemma {:induction false} MapFailsExactly(lex: Lex, s: Shape, j: Json, n: nat)
    requires s.MapShape? && j.JObject? && n <= |j.entries|
    ensures DecodeMap(lex, s, j, n).Err? <==> exists i :: 0 <= i < n && Decode(lex, s.value, j.entries[i].value).Err?
    ensures DecodeMap(lex, s, j, n).Ok? ==> DecodeMap(lex, s, j, n).value.Map?
  {
    hide Decode;
    if n > 0 {
      MapFailsExactly(lex, s, j, n - 1);
    }
  }

  /** The body says d under the shape if and only if it decodes to d. */
  lemma {:induction false} DecodeSays(lex: Lex, s: Shape, j: Json, d: Data)
    ensures Decode(lex, s, j) == Ok(d) <==> Says(lex, s, j, d)
    decreases j, 2
  {
    hide EntriesSay, DecodeList, DecodeStructure, DecodeMap, Integer, Nearest;
    match j {
      case JList(elems) =>
        if s.ListShape? {
          ListOfElems(lex, s, j, d);
        }
      case JObject(entries) =>
        if s.MapShape? || s.StructureShape? {
          ObjectSays(lex, s, j, d);
        }
      case JNumber(text) =>
        if d.Int? {
          NearestInteger(lex.number(text), d.i);
        }
      case JString(text) =>
        if s.BooleanShape? {
          WordsApart(lex.lower(text));
        }
      case _ =>
    }
  }

  lemma WordsApart(t: string)
    ensures !(t in Spellings(true) && t in Spellings(false))
  {
    assert |"true"| == 4 && |"t"| == 1 && |"yes"| == 3 && |"false"| == 5 && |"no"| == 2;
  }

  lemma {:induction false} ListOfElems(lex: Lex, s: Shape, j: Json, d: Data)
    requires s.ListShape? && j.JList?
    ensures DecodeList(lex, s, j, |j.elems|) == Ok(d) <==>
              d.List? && |d.elems| == |j.elems| && forall i :: 0 <= i < |j.elems| ==> Says(lex, s.member, j.elems[i], d.elems[i])
    decreases j, 1
  {
    ListIsList(lex, s, j, |j.elems|);
    if d.List? {
      ListSays(lex, s, j, |j.elems|, d.elems);
    }
  }

  lemma {:induction false} ListIsList(lex: Lex, s: Shape, j: Json, n: nat)
    requires s.ListShape? && j.JList? && n <= |j.elems|
    ensures DecodeList(lex, s, j, n).Ok? ==> DecodeList(lex, s, j, n).value.List?
  {
    hide Decode;
    if n > 0 {
      ListIsList(lex, s, j, n - 1);
    }
  }

  lemma {:induction false} ListSays(lex: Lex, s: Shape, j: Json, n: nat, xs: seq<Data>)
    requires s.ListShape? && j.JList? && n <= |j.elems|
    ensures DecodeList(lex, s, j, n) == Ok(List(xs)) <==>
              |xs| == n && forall i :: 0 <= i < n ==> Says(lex, s.member, j.elems[i], xs[i])
    decreases j, 0, n
  {
    hide Decode, Says;
    if n > 0 {
      ListIsList(lex, s, j, n - 1);
      if xs != [] {
        var m := |xs| - 1;
        assert xs == xs[..m] + [xs[m]];
        ListSays(lex, s, j, n - 1, xs[..m]);
        DecodeSays(lex, s.member, j.elems[n - 1], xs[m]);
      }
    }
  }

  /** Entry i of an object, decoded. */
  lemma EntrySays(lex: Lex, s: Shape, j: Json, i: nat, at: Shape)
    requires j.JObject? && i < |j.entries|
    ensures forall x :: Decode(lex, at, j.entries[i].value) == Ok(x) <==> Says(lex, at, j.entries[i].value, x)
    decreases j, 0
  {
    hide Decode, Says;
    forall x
      ensures Decode(lex, at, j.entries[i].value) == Ok(x) <==> Says(lex, at, j.entries[i].value, x)
    {
      DecodeSays(lex, at, j.entries[i].value, x);
    }
  }

  function Whole(lex: Lex, s: Shape, j: Json): Result<Data>
    requires (s.MapShape? || s.StructureShape?) && j.JObject?
  {
    if s.MapShape? then DecodeMap(lex, s, j, |j.entries|) else DecodeStructure(lex, s, j, |j.entries|)
  }

  /** What both kinds of object have in common. */
  lemma WholeFacts(lex: Lex, s: Shape, j: Json)
    requires (s.MapShape? || s.StructureShape?) && j.JObject?
    ensures Whole(lex, s, j).Err? <==>
              exists i :: 0 <= i < |j.entries| && ShapeAt(s, j.entries[i].name).Some?
                          && Decode(lex, ShapeAt(s, j.entries[i].name).value, j.entries[i].value).Err?
    ensures Whole(lex, s, j).Ok? ==> Whole(lex, s, j).value.Map?
    ensures Whole(lex, s, j).Ok? ==>
              forall k :: var d, last := Whole(lex, s, j).value.entries, LastEntry(j.entries, |j.entries|, k);
                && (k in d <==> ShapeAt(s, k).Some? && last.Some? && (s.MapShape? || !last.value.JNull?))
                && (k in d ==> Decode(lex, ShapeAt(s, k).value, last.value) == Ok(d[k]))
  {
    hide Decode, DecodeMap, DecodeStructure;
    if s.MapShape? {
      MapFailsExactly(lex, s, j, |j.entries|);
    } else {
      StructureFailsExactly(lex, s, j, |j.entries|);
      if Whole(lex, s, j).Ok? {
        LastEntryWins(lex, s, j, |j.entries|, "");
      }
    }
    if Whole(lex, s, j).Ok? {
      forall k
        ensures var d, last := Whole(lex, s, j).value.entries, LastEntry(j.entries, |j.entries|, k);
                && (k in d <==> ShapeAt(s, k).Some? && last.Some? && (s.MapShape? || !last.value.JNull?))
                && (k in d ==> Decode(lex, ShapeAt(s, k).value, last.value) == Ok(d[k]))
      {
        if s.MapShape? {
          MapEntryWins(lex, s, j, |j.entries|, k);
        } else {
          LastEntryWins(lex, s, j, |j.entries|, k);
        }
      }
    }
  }

  lemma SaidAt(lex: Lex, s: Shape, j: Json, i: nat, d: map<string, Data>) returns (x: Data)
    requires (s.MapShape? || s.StructureShape?) && j.JObject? && EntriesSay(lex, s, j, d)
    requires i < |j.entries| && ShapeAt(s, j.entries[i].name).Some?
    ensures Says(lex, ShapeAt(s, j.entries[i].name).value, j.entries[i].value, x)
  {
    x :| Says(lex, ShapeAt(s, j.entries[i].name).value, j.entries[i].value, x);
  }

  lemma {:induction false} ObjectSays(lex: Lex, s: Shape, j: Json, d: Data)
    requires (s.MapShape? || s.StructureShape?) && j.JObject?
    ensures Whole(lex, s, j) == Ok(d) <==> d.Map? && EntriesSay(lex, s, j, d.entries)
    decreases j, 1
  {
    hide Decode, Says, Whole;
    WholeFacts(lex, s, j);
    forall i | 0 <= i < |j.entries| && ShapeAt(s, j.entries[i].name).Some?
      ensures var at := ShapeAt(s, j.entries[i].name).value;
              forall x :: Decode(lex, at, j.entries[i].value) == Ok(x) <==> Says(lex, at, j.entries[i].value, x)
    {
      EntrySays(lex, s, j, i, ShapeAt(s, j.entries[i].name).value);
    }
    if Whole(lex, s, j) == Ok(d) {
      forall i | 0 <= i < |j.entries| && ShapeAt(s, j.entries[i].name).Some?
        ensures exists x :: Says(lex, ShapeAt(s, j.entries[i].name).value, j.entries[i].value, x)
      {
        var r := Decode(lex, ShapeAt(s, j.entries[i].name).value, j.entries[i].value);
        assert Says(lex, ShapeAt(s, j.entries[i].name).value, j.entries[i].value, r.value);
      }
      forall k, i | k in d.entries && 0 <= i < |j.entries| && IsLast(j.entries, i, k)
        ensures Says(lex, ShapeAt(s, k).value, j.entries[i].value, d.entries[k])
      {
        LastOne(j.entries, |j.entries|, k, i);
      }
    }
    if d.Map? && EntriesSay(lex, s, j, d.entries) {
      forall i | 0 <= i < |j.entries| && ShapeAt(s, j.entries[i].name).Some?
        ensures Decode(lex, ShapeAt(s, j.entries[i].name).value, j.entries[i].value).Ok?
      {
        var x := SaidAt(lex, s, j, i, d.entries);
        assert Decode(lex, ShapeAt(s, j.entries[i].name).value, j.entries[i].value) == Ok(x);
      }
      var e := Whole(lex, s, j).value.entries;
      forall k
        ensures k in d.entries <==> k in e
        ensures k in e ==> d.entries[k] == e[k]
      {
        if k in e {
          var i := LastIndex(j.entries, |j.entries|, k);
          assert IsLast(j.entries, i, k);
          assert Says(lex, ShapeAt(s, k).value, j.entries[i].value, d.entries[k]);
        }
      }
      assert d.entries == e;
    }
  }
}
