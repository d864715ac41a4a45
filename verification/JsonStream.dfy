/** The decoder as it works: one pass over the token stream of a valid JSON body. */
module JsonStream {
  import opened Values
  import opened Decoding

  datatype Token = TNull | TBool(flag: bool) | TNumber(text: string) | TString(text: string)
    | OpenObject | CloseObject | OpenList | CloseList

  /** The tokens of a value. */
  function Tokens(j: Json): (ts: seq<Token>)
    ensures |ts| > 0 && !ts[0].CloseObject? && !ts[0].CloseList?
    decreases j, 1
  {
    match j
    case JNull => [TNull]
    case JBool(b) => [TBool(b)]
    case JNumber(t) => [TNumber(t)]
    case JString(t) => [TString(t)]
    case JList(elems) => [OpenList] + ElemTokens(j, 0) + [CloseList]
    case JObject(entries) => [OpenObject] + EntryTokens(j, 0) + [CloseObject]
  }

  function ElemTokens(j: Json, i: nat): seq<Token>
    requires j.JList? && i <= |j.elems|
    decreases j, 0, |j.elems| - i
  {
    if i == |j.elems| then [] else Tokens(j.elems[i]) + ElemTokens(j, i + 1)
  }

  function EntryTokens(j: Json, i: nat): seq<Token>
    requires j.JObject? && i <= |j.entries|
    decreases j, 0, |j.entries| - i
  {
    if i == |j.entries| then [] else [TString(j.entries[i].name)] + Tokens(j.entries[i].value) + EntryTokens(j, i + 1)
  }

  /** The stream goes on with these tokens. */
  predicate Ahead(toks: seq<Token>, pos: nat, next: seq<Token>) {
    pos + |next| <= |toks| && toks[pos..pos + |next|] == next
  }

  lemma AheadSplit(toks: seq<Token>, pos: nat, x: seq<Token>, y: seq<Token>)
    requires Ahead(toks, pos, x + y)
    ensures Ahead(toks, pos, x) && Ahead(toks, pos + |x|, y)
  {
    var z := x + y;
    assert z[..|x|] == x && z[|x|..] == y;
    assert toks[pos..pos + |x|] == toks[pos..pos + |z|][..|x|];
    assert toks[pos + |x|..pos + |z|] == toks[pos..pos + |z|][|x|..];
  }

  lemma AheadFirst(toks: seq<Token>, pos: nat, x: seq<Token>)
    requires Ahead(toks, pos, x) && x != []
    ensures pos < |toks| && toks[pos] == x[0]
  {
    assert toks[pos] == toks[pos..pos + |x|][0];
  }

  /** A list's tokens, once its bracket is read. */
  lemma ListAhead(toks: seq<Token>, pos: nat, j: Json)
    requires j.JList? && Ahead(toks, pos, Tokens(j))
    ensures pos < |toks| && toks[pos] == OpenList && Ahead(toks, pos + 1, ElemTokens(j, 0) + [CloseList])
    ensures |Tokens(j)| == 1 + |ElemTokens(j, 0) + [CloseList]|
  {
    assert Tokens(j) == [OpenList] + (ElemTokens(j, 0) + [CloseList]);
    AheadSplit(toks, pos, [OpenList], ElemTokens(j, 0) + [CloseList]);
    AheadFirst(toks, pos, [OpenList]);
  }

  lemma ObjectAhead(toks: seq<Token>, pos: nat, j: Json)
    requires j.JObject? && Ahead(toks, pos, Tokens(j))
    ensures pos < |toks| && toks[pos] == OpenObject && Ahead(toks, pos + 1, EntryTokens(j, 0) + [CloseObject])
    ensures |Tokens(j)| == 1 + |EntryTokens(j, 0) + [CloseObject]|
  {
    assert Tokens(j) == [OpenObject] + (EntryTokens(j, 0) + [CloseObject]);
    AheadSplit(toks, pos, [OpenObject], EntryTokens(j, 0) + [CloseObject]);
    AheadFirst(toks, pos, [OpenObject]);
  }

  /** The next element is there exactly if the closing bracket is not next. */
  lemma ElemAhead(toks: seq<Token>, pos: nat, j: Json, i: nat)
    requires j.JList? && i <= |j.elems| && Ahead(toks, pos, ElemTokens(j, i) + [CloseList])
    ensures pos < |toks| && (i < |j.elems| <==> !toks[pos].CloseList?) && !toks[pos].CloseObject?
    ensures i < |j.elems| ==> Ahead(toks, pos, Tokens(j.elems[i]))
                              && Ahead(toks, pos + |Tokens(j.elems[i])|, ElemTokens(j, i + 1) + [CloseList])
    ensures |ElemTokens(j, i)| == if i < |j.elems| then |Tokens(j.elems[i])| + |ElemTokens(j, i + 1)| else 0
  {
    if i < |j.elems| {
      var x, y := Tokens(j.elems[i]), ElemTokens(j, i + 1);
      assert ElemTokens(j, i) + [CloseList] == x + (y + [CloseList]);
      AheadSplit(toks, pos, x, y + [CloseList]);
      AheadFirst(toks, pos, x);
    } else {
      assert ElemTokens(j, i) + [CloseList] == [CloseList];
      AheadFirst(toks, pos, [CloseList]);
    }
  }

  lemma EntryAhead(toks: seq<Token>, pos: nat, j: Json, i: nat)
    requires j.JObject? && i <= |j.entries| && Ahead(toks, pos, EntryTokens(j, i) + [CloseObject])
    ensures pos < |toks| && (i < |j.entries| <==> !toks[pos].CloseObject?) && !toks[pos].CloseList?
    ensures i < |j.entries| ==>
              && toks[pos] == TString(j.entries[i].name)
              && Ahead(toks, pos + 1, Tokens(j.entries[i].value))
              && Ahead(toks, pos + 1 + |Tokens(j.entries[i].value)|, EntryTokens(j, i + 1) + [CloseObject])
    ensures |EntryTokens(j, i)| == if i < |j.entries| then 1 + |Tokens(j.entries[i].value)| + |EntryTokens(j, i + 1)| else 0
  {
    if i < |j.entries| {
      var k, x, y := [TString(j.entries[i].name)], Tokens(j.entries[i].value), EntryTokens(j, i + 1);
      assert EntryTokens(j, i) + [CloseObject] == k + (x + (y + [CloseObject]));
      AheadSplit(toks, pos, k, x + (y + [CloseObject]));
      AheadFirst(toks, pos, k);
      AheadSplit(toks, pos + 1, x, y + [CloseObject]);
    } else {
      assert EntryTokens(j, i) + [CloseObject] == [CloseObject];
      AheadFirst(toks, pos, [CloseObject]);
    }
  }

  /** `json.Decoder` over a valid body. */
  class Decoder {
    const lex: Lex
    const toks: seq<Token>
    var pos: nat

    constructor (lex: Lex, toks: seq<Token>)
      ensures this.lex == lex && this.toks == toks && pos == 0
    {
      this.lex, this.toks, pos := lex, toks, 0;
    }

    method Next() returns (t: Token)
      requires pos < |toks|
      modifies this
      ensures t == toks[old(pos)] && pos == old(pos) + 1
    {
      t := toks[pos];
      pos := pos + 1;
    }

    /** `More`: the enclosing list or object goes on. */
    predicate More()
      requires pos < |toks|
      reads this
    {
      !toks[pos].CloseObject? && !toks[pos].CloseList?
    }

    /** Reads over a value of an unknown member. */
    method Skip(ghost j: Json)
      requires Ahead(toks, pos, Tokens(j))
      modifies this
      ensures pos == old(pos) + |Tokens(j)|
      decreases j, 1
    {
      hide Ahead, ElemTokens, EntryTokens;
      AheadFirst(toks, pos, Tokens(j));
      if j.JList? {
        ListAhead(toks, pos, j);
      } else if j.JObject? {
        ObjectAhead(toks, pos, j);
      }
      var t := Next();
      if t.OpenList? {
        SkipElems(j);
      } else if t.OpenObject? {
        SkipEntries(j);
      }
    }

    method SkipElems(ghost j: Json)
      requires j.JList? && Ahead(toks, pos, ElemTokens(j, 0) + [CloseList])
      modifies this
      ensures pos == old(pos) + |ElemTokens(j, 0)| + 1
      decreases j, 0
    {
      hide Ahead, Tokens, ElemTokens;
      ghost var i := 0;
      ElemAhead(toks, pos, j, 0);
      while More()
        invariant 0 <= i <= |j.elems| && Ahead(toks, pos, ElemTokens(j, i) + [CloseList])
        invariant pos < |toks| && (i < |j.elems| <==> More())
        invariant pos + |ElemTokens(j, i)| == old(pos) + |ElemTokens(j, 0)|
        decreases |j.elems| - i
      {
        ElemAhead(toks, pos, j, i);
        Skip(j.elems[i]);
        i := i + 1;
        ElemAhead(toks, pos, j, i);
      }
      ElemAhead(toks, pos, j, i);
      var _ := Next();
    }

    method SkipEntries(ghost j: Json)
      requires j.JObject? && Ahead(toks, pos, EntryTokens(j, 0) + [CloseObject])
      modifies this
      ensures pos == old(pos) + |EntryTokens(j, 0)| + 1
      decreases j, 0
    {
      hide Ahead, Tokens, EntryTokens;
      ghost var i := 0;
      EntryAhead(toks, pos, j, 0);
      while More()
        invariant 0 <= i <= |j.entries| && Ahead(toks, pos, EntryTokens(j, i) + [CloseObject])
        invariant pos < |toks| && (i < |j.entries| <==> More())
        invariant pos + |EntryTokens(j, i)| == old(pos) + |EntryTokens(j, 0)|
        decreases |j.entries| - i
      {
        EntryAhead(toks, pos, j, i);
        var _ := Next();
        Skip(j.entries[i].value);
        i := i + 1;
        EntryAhead(toks, pos, j, i);
      }
      EntryAhead(toks, pos, j, i);
      var _ := Next();
    }

    /** `decodeValue`. */
    method DecodeValue(s: Shape, ghost j: Json) returns (r: Result<Data>)
      requires Ahead(toks, pos, Tokens(j))
      modifies this
      ensures r == Decode(lex, s, j)
      ensures r.Ok? ==> pos == old(pos) + |Tokens(j)|
      decreases j, 1
    {
      hide Ahead, DecodeList, DecodeStructure, DecodeMap;
      AheadFirst(toks, pos, Tokens(j));
      if j.JList? {
        ListAhead(toks, pos, j);
      } else if j.JObject? {
        ObjectAhead(toks, pos, j);
      }
      var t := Next();
      match t {
        case TNull => r := Ok(Nil);
        case OpenList =>
          if s.ListShape? {
            r := DecodeElems(s, j);
          } else {
            r := Err;
          }
        case OpenObject =>
          if s.StructureShape? {
            r := DecodeMembers(s, j);
          } else if s.MapShape? {
            r := DecodeEntries(s, j);
          } else {
            r := Err;
          }
        case TString(text) => r := Decode(lex, s, JString(text));
        case TNumber(text) => r := Decode(lex, s, JNumber(text));
        case TBool(b) => r := Decode(lex, s, JBool(b));
      }
    }

    /** `decodeList`, after the bracket. */
    method DecodeElems(s: Shape, ghost j: Json) returns (r: Result<Data>)
      requires s.ListShape? && j.JList? && Ahead(toks, pos, ElemTokens(j, 0) + [CloseList])
      modifies this
      ensures r == DecodeList(lex, s, j, |j.elems|)
      ensures r.Ok? ==> pos == old(pos) + |ElemTokens(j, 0)| + 1
      decreases j, 0
    {
      hide Ahead, Decode, Tokens, ElemTokens;
      var out: seq<Data> := [];
      ghost var i := 0;
      ElemAhead(toks, pos, j, 0);
      while More()
        invariant 0 <= i <= |j.elems| && Ahead(toks, pos, ElemTokens(j, i) + [CloseList])
        invariant pos < |toks| && (i < |j.elems| <==> More())
        invariant pos + |ElemTokens(j, i)| == old(pos) + |ElemTokens(j, 0)|
        invariant DecodeList(lex, s, j, i) == Ok(List(out))
        decreases |j.elems| - i
      {
        ElemAhead(toks, pos, j, i);
        var v := DecodeValue(s.member, j.elems[i]);
        if v.Err? {
          ListStops(lex, s, j, i + 1);
          return Err;
        }
        out := out + [v.value];
        i := i + 1;
        ElemAhead(toks, pos, j, i);
      }
      ElemAhead(toks, pos, j, i);
      var _ := Next();
      r := Ok(List(out));
    }

    /** `decodeStructure`, after the brace. */
    method DecodeMembers(s: Shape, ghost j: Json) returns (r: Result<Data>)
      requires s.StructureShape? && j.JObject? && Ahead(toks, pos, EntryTokens(j, 0) + [CloseObject])
      modifies this
      ensures r == DecodeStructure(lex, s, j, |j.entries|)
      ensures r.Ok? ==> pos == old(pos) + |EntryTokens(j, 0)| + 1
      decreases j, 0
    {
      hide Ahead, Decode, DecodeStructure, FindMember, Tokens, EntryTokens;
      NothingDecoded(lex, s, j);
      var out: map<string, Data> := map[];
      ghost var i := 0;
      EntryAhead(toks, pos, j, 0);
      while More()
        invariant 0 <= i <= |j.entries| && Ahead(toks, pos, EntryTokens(j, i) + [CloseObject])
        invariant pos < |toks| && (i < |j.entries| <==> More())
        invariant pos + |EntryTokens(j, i)| == old(pos) + |EntryTokens(j, 0)|
        invariant DecodeStructure(lex, s, j, i) == Ok(Map(out))
        decreases |j.entries| - i
      {
        EntryAhead(toks, pos, j, i);
        StructureStep(lex, s, j, i, out);
        var name := Next();
        var m := Find(s.members, name.text);
        if m.None? {
          Skip(j.entries[i].value);
        } else {
          var v := DecodeValue(m.value.shape, j.entries[i].value);
          if v.Err? {
            StructureStops(lex, s, j, i + 1);
            return Err;
          }
          out := Stored(out, name.text, v.value);
        }
        i := i + 1;
        EntryAhead(toks, pos, j, i);
      }
      EntryAhead(toks, pos, j, i);
      var _ := Next();
      r := Ok(Map(out));
    }

    /** The loop that looks a member up. */
    method Find(members: seq<Member>, name: string) returns (m: Option<Member>)
      ensures m == FindMember(members, name)
    {
      for i := 0 to |members|
        invariant FindMember(members, name) == FindMember(members[i..], name)
      {
        if members[i].name == name {
          return Some(members[i]);
        }
      }
      m := None;
    }

    /** `decodeMap`, after the brace. */
    method DecodeEntries(s: Shape, ghost j: Json) returns (r: Result<Data>)
      requires s.MapShape? && j.JObject? && Ahead(toks, pos, EntryTokens(j, 0) + [CloseObject])
      modifies this
      ensures r == DecodeMap(lex, s, j, |j.entries|)
      ensures r.Ok? ==> pos == old(pos) + |EntryTokens(j, 0)| + 1
      decreases j, 0
    {
      hide Ahead, Decode, Tokens, EntryTokens;
      var out: map<string, Data> := map[];
      ghost var i := 0;
      EntryAhead(toks, pos, j, 0);
      while More()
        invariant 0 <= i <= |j.entries| && Ahead(toks, pos, EntryTokens(j, i) + [CloseObject])
        invariant pos < |toks| && (i < |j.entries| <==> More())
        invariant pos + |EntryTokens(j, i)| == old(pos) + |EntryTokens(j, 0)|
        invariant DecodeMap(lex, s, j, i) == Ok(Map(out))
        decreases |j.entries| - i
      {
        EntryAhead(toks, pos, j, i);
        var name := Next();
        var v := DecodeValue(s.value, j.entries[i].value);
        if v.Err? {
          MapStops(lex, s, j, i + 1);
          return Err;
        }
        out := out[name.text := v.value];
        i := i + 1;
        EntryAhead(toks, pos, j, i);
      }
      EntryAhead(toks, pos, j, i);
      var _ := Next();
      r := Ok(Map(out));
    }

    /** `decodeInput`: the whole body is one value, an object. What comes out has the
        type of the input shape. */
    method DecodeInput(s: Shape, ghost j: Json) returns (r: Result<Data>)
      requires s.StructureShape? && pos == 0 && toks == Tokens(j)
      modifies this
      ensures r == (if j.JObject? then Decode(lex, s, j) else Err)
      ensures r.Ok? ==> pos == |toks| && Conforms(s, r.value)
    {
      hide Decode, Conforms, Ahead;
      WholeAhead(toks);
      AheadFirst(toks, pos, Tokens(j));
      if j.JObject? {
        ObjectAhead(toks, pos, j);
      }
      var t := Next();
      if !t.OpenObject? {
        return Err;
      }
      r := DecodeMembers(s, j);
      ObjectDecodes(lex, s, j);
      if r.Ok? {
        DecodeConforms(lex, s, j);
      }
    }
  }

  lemma WholeAhead(toks: seq<Token>)
    ensures Ahead(toks, 0, toks)
  {
    assert toks[0..0 + |toks|] == toks;
  }

  lemma ObjectDecodes(lex: Lex, s: Shape, j: Json)
    requires s.StructureShape? && j.JObject?
    ensures Decode(lex, s, j) == DecodeStructure(lex, s, j, |j.entries|)
  {
  }

  lemma NothingDecoded(lex: Lex, s: Shape, j: Json)
    requires s.StructureShape? && j.JObject?
    ensures DecodeStructure(lex, s, j, 0) == Ok(Map(map[]))
  {
  }

  lemma StructureStep(lex: Lex, s: Shape, j: Json, i: nat, out: map<string, Data>)
    requires s.StructureShape? && j.JObject? && i < |j.entries| && DecodeStructure(lex, s, j, i) == Ok(Map(out))
    ensures var e := j.entries[i];
            var m := FindMember(s.members, e.name);
            DecodeStructure(lex, s, j, i + 1)
            == if m.None? then Ok(Map(out))
               else
                 var v := Decode(lex, m.value.shape, e.value);
                 if v.Err? then Err else Ok(Map(Stored(out, e.name, v.value)))
  {
    hide Decode, FindMember;
  }

  /** Once a prefix fails, the whole does. */
  lemma {:induction false} ListStops(lex: Lex, s: Shape, j: Json, n: nat)
    requires s.ListShape? && j.JList? && n <= |j.elems| && DecodeList(lex, s, j, n).Err?
    ensures DecodeList(lex, s, j, |j.elems|).Err?
    decreases |j.elems| - n
  {
    hide Decode;
    if n < |j.elems| {
      ListStops(lex, s, j, n + 1);
    }
  }

  lemma {:induction false} StructureStops(lex: Lex, s: Shape, j: Json, n: nat)
    requires s.StructureShape? && j.JObject? && n <= |j.entries| && DecodeStructure(lex, s, j, n).Err?
    ensures DecodeStructure(lex, s, j, |j.entries|).Err?
    decreases |j.entries| - n
  {
    hide Decode;
    if n < |j.entries| {
      StructureStops(lex, s, j, n + 1);
    }
  }

  lemma {:induction false} MapStops(lex: Lex, s: Shape, j: Json, n: nat)
    requires s.MapShape? && j.JObject? && n <= |j.entries| && DecodeMap(lex, s, j, n).Err?
    ensures DecodeMap(lex, s, j, |j.entries|).Err?
    decreases |j.entries| - n
  {
    hide Decode;
    if n < |j.entries| {
      MapStops(lex, s, j, n + 1);
    }
  }
}
