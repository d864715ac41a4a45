/** Request bodies read as the input shapes of the service model: coercion, null
    handling, duplicate members, and the type every decoded value then has. */
module Decoding {
  import opened Values

  // ---- shapes

  /** Length bounds for strings, lists and maps, value bounds for integers. */
  datatype Constraints = Constraints(
    min: Option<int>,
    max: Option<int>,
    pattern: Option<string>,
    enum: Option<seq<string>>)

  datatype Shape =
    | StringShape(sensitive: bool, limits: Constraints)
    | IntegerShape(sensitive: bool, limits: Constraints)
    | BooleanShape(sensitive: bool)
    | StructureShape(sensitive: bool, name: string, members: seq<Member>)
    | ListShape(sensitive: bool, member: Shape, limits: Constraints)
    | MapShape(sensitive: bool, key: Shape, value: Shape, limits: Constraints)

  datatype Member = Member(name: string, required: bool, shape: Shape)

  // ---- JSON

  /** An object keeps its members in order, repeated ones included. */
  datatype Json =
    | JNull
    | JBool(flag: bool)
    | JNumber(text: string)
    | JString(text: string)
    | JList(elems: seq<Json>)
    | JObject(entries: seq<Entry>)

  datatype Entry = Entry(name: string, value: Json)

  /** What `ParseFloat` makes of a JSON number. */
  datatype Float = Finite(r: real) | PlusInf | MinusInf

  // ---- decoded values

  datatype Data =
    | Nil
    | Text(text: string)
    | Int(i: int)
    | Flag(flag: bool)
    | List(elems: seq<Data>)
    | Map(entries: map<string, Data>)

  datatype Result<+T> = Ok(value: T) | Err

  const MIN_INT := -0x8000_0000
  const MAX_INT := 0x7FFF_FFFF

  function Truncate(r: real): int {
    if r >= 0.0 then r.Floor else -((-r).Floor)
  }

  /** Truncated toward zero and clamped to 32 bits. */
  function Integer(f: Float): (i: int)
    ensures MIN_INT <= i <= MAX_INT
    ensures f.Finite? && f.r == (i as real) ==> i == Truncate(f.r)
  {
    match f
    case PlusInf => MAX_INT
    case MinusInf => MIN_INT
    case Finite(r) =>
      var t := Truncate(r);
      if t > MAX_INT then MAX_INT else if t < MIN_INT then MIN_INT else t
  }

  /** Library: number parsing, lower-casing of a text or of its first letter, and
      whether a text as a whole matches a pattern. */
  datatype Lex = Lex(
    number: string -> Float,
    lower: string -> string,
    lowerFirst: string -> string,
    matches: (string, string) -> bool)

  function DecodeBoolean(lex: Lex, j: Json): Result<Data> {
    match j
    case JBool(b) => Ok(Flag(b))
    case JString(s) =>
      var t := lex.lower(s);
      if t in ["true", "t", "yes", "y", "1"] then Ok(Flag(true))
      else if t in ["false", "f", "no", "n", "0"] then Ok(Flag(false))
      else Err
    case _ => Err
  }

  /** The first member with this name. */
  function FindMember(members: seq<Member>, name: string): Option<Member> {
    if members == [] then None
    else if members[0].name == name then Some(members[0])
    else FindMember(members[1..], name)
  }

  /** `decodeValue`; null is Nil whatever the shape. */
  function Decode(lex: Lex, s: Shape, j: Json): Result<Data>
    decreases j, 1, 0
  {
    match j
    case JNull => Ok(Nil)
    case JList(elems) => if s.ListShape? then DecodeList(lex, s, j, |elems|) else Err
    case JObject(entries) =>
      if s.StructureShape? then DecodeStructure(lex, s, j, |entries|)
      else if s.MapShape? then DecodeMap(lex, s, j, |entries|)
      else Err
    case _ =>
      match s
      case StringShape(_, _) => if j.JString? then Ok(Text(j.text)) else Err
      case IntegerShape(_, _) => if j.JNumber? then Ok(Int(Integer(lex.number(j.text)))) else Err
      case BooleanShape(_) => DecodeBoolean(lex, j)
      case _ => Err
  }

  /** The first n elements. */
  function DecodeList(lex: Lex, s: Shape, j: Json, n: nat): Result<Data>
    requires s.ListShape? && j.JList? && n <= |j.elems|
    decreases j, 0, n
  {
    if n == 0 then Ok(List([]))
    else
      var init := DecodeList(lex, s, j, n - 1);
      if init.Err? || !init.value.List? then Err
      else
        var v := Decode(lex, s.member, j.elems[n - 1]);
        if v.Err? then Err else Ok(List(init.value.elems + [v.value]))
  }

  /** The first n members: unknown ones are dropped, null removes. */
  function DecodeStructure(lex: Lex, s: Shape, j: Json, n: nat): Result<Data>
    requires s.StructureShape? && j.JObject? && n <= |j.entries|
    decreases j, 0, n
  {
    if n == 0 then Ok(Map(map[]))
    else
      var init := DecodeStructure(lex, s, j, n - 1);
      if init.Err? || !init.value.Map? then Err
      else
        var e := j.entries[n - 1];
        var m := FindMember(s.members, e.name);
        if m.None? then init
        else
          var v := Decode(lex, m.value.shape, e.value);
          if v.Err? then Err else Ok(Map(Stored(init.value.entries, e.name, v.value)))
  }

  function Stored(entries: map<string, Data>, name: string, v: Data): map<string, Data> {
    if v.Nil? then entries - {name} else entries[name := v]
  }

  function DecodeMap(lex: Lex, s: Shape, j: Json, n: nat): Result<Data>
    requires s.MapShape? && j.JObject? && n <= |j.entries|
    decreases j, 0, n
  {
    if n == 0 then Ok(Map(map[]))
    else
      var init := DecodeMap(lex, s, j, n - 1);
      if init.Err? || !init.value.Map? then Err
      else
        var e := j.entries[n - 1];
        var v := Decode(lex, s.value, e.value);
        if v.Err? then Err else Ok(Map(init.value.entries[e.name := v.value]))
  }

  // ---- what a decoded value looks like

  /** The value has the shape's type throughout; Nil occurs only inside lists and maps. */
  predicate Conforms(s: Shape, d: Data)
    decreases d
  {
    match s
    case StringShape(_, _) => d.Text?
    case IntegerShape(_, _) => d.Int? && MIN_INT <= d.i <= MAX_INT
    case BooleanShape(_) => d.Flag?
    case ListShape(_, member, _) => d.List? && forall e :: e in d.elems ==> e.Nil? || Conforms(member, e)
    case MapShape(_, _, value, _) => d.Map? && forall k :: k in d.entries ==> d.entries[k].Nil? || Conforms(value, d.entries[k])
    case StructureShape(_, _, members) =>
      d.Map? && forall k :: k in d.entries ==>
                  FindMember(members, k).Some? && Conforms(FindMember(members, k).value.shape, d.entries[k])
  }

  /** Decoding gives Nil for null and a value of the shape for everything else. */
  lemma {:induction false} DecodeConforms(lex: Lex, s: Shape, j: Json)
    requires Decode(lex, s, j).Ok?
    ensures Decode(lex, s, j).value.Nil? <==> j.JNull?
    ensures !j.JNull? ==> Conforms(s, Decode(lex, s, j).value)
    decreases j, 1, 0
  {
    match j
    case JList(elems) => DecodeListConforms(lex, s, j, |elems|);
    case JObject(entries) =>
      if s.StructureShape? {
        DecodeStructureConforms(lex, s, j, |entries|);
      } else {
        DecodeMapConforms(lex, s, j, |entries|);
      }
    case _ =>
  }

  lemma {:induction false} DecodeListConforms(lex: Lex, s: Shape, j: Json, n: nat)
    requires s.ListShape? && j.JList? && n <= |j.elems| && DecodeList(lex, s, j, n).Ok?
    ensures Conforms(s, DecodeList(lex, s, j, n).value)
    decreases j, 0, n
  {
    if n > 0 {
      DecodeListConforms(lex, s, j, n - 1);
      DecodeConforms(lex, s.member, j.elems[n - 1]);
    }
  }

  lemma {:induction false} DecodeStructureConforms(lex: Lex, s: Shape, j: Json, n: nat)
    requires s.StructureShape? && j.JObject? && n <= |j.entries| && DecodeStructure(lex, s, j, n).Ok?
    ensures Conforms(s, DecodeStructure(lex, s, j, n).value)
    decreases j, 0, n
  {
    if n > 0 {
      DecodeStructureConforms(lex, s, j, n - 1);
      var e := j.entries[n - 1];
      var m := FindMember(s.members, e.name);
      if m.Some? {
        DecodeConforms(lex, m.value.shape, e.value);
      }
    }
  }

  lemma {:induction false} DecodeMapConforms(lex: Lex, s: Shape, j: Json, n: nat)
    requires s.MapShape? && j.JObject? && n <= |j.entries| && DecodeMap(lex, s, j, n).Ok?
    ensures Conforms(s, DecodeMap(lex, s, j, n).value)
    decreases j, 0, n
  {
    if n > 0 {
      DecodeMapConforms(lex, s, j, n - 1);
      DecodeConforms(lex, s.value, j.entries[n - 1].value);
    }
  }

  /** The last entry with this name, counting from the front. */
  function LastEntry(entries: seq<Entry>, n: nat, name: string): Option<Json>
    requires n <= |entries|
  {
    if n == 0 then None
    else if entries[n - 1].name == name then Some(entries[n - 1].value)
    else LastEntry(entries, n - 1, name)
  }

  /** In a decoded structure a member is present if and only if it is known and its last
      entry is not null, and it then holds what that last entry decodes to. */
  lemma {:induction false} LastEntryWins(lex: Lex, s: Shape, j: Json, n: nat, name: string)
    requires s.StructureShape? && j.JObject? && n <= |j.entries| && DecodeStructure(lex, s, j, n).Ok?
    ensures var d, m, last := DecodeStructure(lex, s, j, n).value, FindMember(s.members, name), LastEntry(j.entries, n, name);
            && d.Map?
            && (name in d.entries <==> m.Some? && last.Some? && !last.value.JNull?)
            && (name in d.entries ==> Decode(lex, m.value.shape, last.value) == Ok(d.entries[name]))
  {
    hide Decode;
    if n > 0 {
      LastEntryWins(lex, s, j, n - 1, name);
      var e := j.entries[n - 1];
      var m := FindMember(s.members, e.name);
      if m.Some? {
        DecodeConforms(lex, m.value.shape, e.value);
      }
    }
  }

  /** Decoding a structure fails exactly if a known member has an entry that does not
      decode, a later good one notwithstanding. */
  lemma {:induction false} StructureFailsExactly(lex: Lex, s: Shape, j: Json, n: nat)
    requires s.StructureShape? && j.JObject? && n <= |j.entries|
    ensures DecodeStructure(lex, s, j, n).Err? <==>
              exists i :: 0 <= i < n && FindMember(s.members, j.entries[i].name).Some?
                          && Decode(lex, FindMember(s.members, j.entries[i].name).value.shape, j.entries[i].value).Err?
  {
    hide Decode;
    if n > 0 {
      StructureFailsExactly(lex, s, j, n - 1);
      if DecodeStructure(lex, s, j, n - 1).Ok? {
        DecodeStructureConforms(lex, s, j, n - 1);
      }
    }
  }

  /** The 32-bit clamp keeps every number that fits, cut toward zero. */
  lemma IntegerExact(f: Float)
    ensures f.Finite? && (MIN_INT as real) - 1.0 < f.r < (MAX_INT as real) + 1.0 ==> Integer(f) == Truncate(f.r)
    ensures f.Finite? ==> (if f.r >= 0.0 then (Truncate(f.r) as real) <= f.r < (Truncate(f.r) as real) + 1.0
                           else (Truncate(f.r) as real) - 1.0 < f.r <= (Truncate(f.r) as real))
  {
  }
}
