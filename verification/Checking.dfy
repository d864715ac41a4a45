/** The checks themselves: what they print, what they report, and when they report
    nothing. The type of every value is known from decoding, so no case is missing. */
module Checking {
  import opened Values
  import Paging
  import opened TextKeys
  import opened Decoding
  import opened Validation

  // ---- shapes a generated table holds

  /** Member names are distinct in every structure, also after lower-casing the first letter. */
  predicate WellShaped(lex: Lex, s: Shape) {
    match s
    case StructureShape(_, _, members) =>
      && NoRepeats(Names(lex, members))
      && (forall i, j :: 0 <= i < j < |members| ==> members[i].name != members[j].name)
      && forall m :: m in members ==> WellShaped(lex, m.shape)
    case ListShape(_, member, _) => WellShaped(lex, member)
    case MapShape(_, key, value, _) => WellShaped(lex, key) && WellShaped(lex, value)
    case _ => true
  }

  lemma {:induction false} FindSelf(members: seq<Member>, m: Member)
    requires (forall i, j :: 0 <= i < j < |members| ==> members[i].name != members[j].name) && m in members
    ensures FindMember(members, m.name) == Some(m)
  {
    if members[0] != m {
      assert m in members[1..];
      FindSelf(members[1..], m);
      var i :| 0 <= i < |members[1..]| && members[1..][i] == m;
      assert members[i + 1] == m;
    }
  }

  /** A member present in a conforming structure has the member's type. */
  lemma MemberConforms(lex: Lex, s: Shape, d: Data, m: Member)
    requires s.StructureShape? && WellShaped(lex, s) && Conforms(s, d) && m in s.members
    ensures m.name in d.entries ==> Conforms(m.shape, d.entries[m.name])
    ensures WellShaped(lex, m.shape)
  {
    FindSelf(s.members, m);
  }

  // ---- printing

  function IntText(i: int): string {
    if i < 0 then "-" + Decimal(-i) else Decimal(i)
  }

  function Glue(first: string, n: nat, next: string): string {
    first + (if n > 1 then ", " else "") + next
  }

  /** `render`. */
  ghost function Render(lex: Lex, s: Shape, v: Data): string
    requires WellShaped(lex, s) && (v.Nil? || Conforms(s, v))
    decreases s, 1, 0
  {
    if v.Nil? then "null"
    else
      match s
      case StringShape(_, _) => v.text
      case IntegerShape(_, _) => IntText(v.i)
      case BooleanShape(_) => if v.flag then "true" else "false"
      case ListShape(_, _, _) => "[" + RenderElems(lex, s, v, |v.elems|) + "]"
      case MapShape(_, _, _, _) => "{" + RenderEntries(lex, s, v, |MapKeys(v.entries.Keys)|) + "}"
      case StructureShape(_, name, members) => name + "(" + RenderMembers(lex, s, v, |members|) + ")"
  }

  ghost function RenderElems(lex: Lex, s: Shape, v: Data, n: nat): string
    requires s.ListShape? && WellShaped(lex, s) && Conforms(s, v) && n <= |v.elems|
    decreases s, 0, n
  {
    if n == 0 then ""
    else
      assert v.elems[n - 1] in v.elems;
      Glue(RenderElems(lex, s, v, n - 1), n, Render(lex, s.member, v.elems[n - 1]))
  }

  ghost function RenderEntries(lex: Lex, s: Shape, v: Data, n: nat): string
    requires s.MapShape? && WellShaped(lex, s) && Conforms(s, v) && n <= |MapKeys(v.entries.Keys)|
    decreases s, 0, n
  {
    if n == 0 then ""
    else
      InMapKeys(v.entries.Keys);
      var k := MapKeys(v.entries.Keys)[n - 1];
      assert k in v.entries;
      Glue(RenderEntries(lex, s, v, n - 1), n, k + "=" + Render(lex, s.value, v.entries[k]))
  }

  /** An absent integer prints as 0. */
  function ValueOf(m: Member, entries: map<string, Data>): Data {
    if m.name in entries then entries[m.name] else if m.shape.IntegerShape? then Int(0) else Nil
  }

  ghost function RenderMembers(lex: Lex, s: Shape, v: Data, n: nat): string
    requires s.StructureShape? && WellShaped(lex, s) && Conforms(s, v) && n <= |s.members|
    decreases s, 0, n
  {
    if n == 0 then ""
    else
      var m := s.members[n - 1];
      MemberConforms(lex, s, v, m);
      Glue(RenderMembers(lex, s, v, n - 1), n, lex.lowerFirst(m.name) + "=" + Render(lex, m.shape, ValueOf(m, v.entries)))
  }

  predicate Hidden(s: Shape) {
    s.sensitive || (s.ListShape? && s.member.sensitive) || (s.MapShape? && s.value.sensitive)
  }

  /** `display`. */
  ghost function Display(lex: Lex, s: Shape, v: Data): string
    requires WellShaped(lex, s) && (v.Nil? || Conforms(s, v))
  {
    if Hidden(s) then "" else if v.Nil? then "null" else "'" + Render(lex, s, v) + "'"
  }

  // ---- violations

  datatype Rule = NotNull | MaxLength(n: int) | MinLength(n: int) | MaxValue(n: int) | MinValue(n: int)
    | PatternRule | EnumRule | ElementRule | KeyRule | ValueRule

  datatype Violation = Violation(path: string, shown: string, rule: Rule)

  /** `broken`: the constraints a scalar breaks, in order. */
  function Broken(lex: Lex, c: Constraints, v: Data): seq<Rule> {
    match v
    case Text(t) =>
      (if c.max.Some? && |t| > c.max.value then [MaxLength(c.max.value)] else [])
      + (if c.min.Some? && |t| < c.min.value then [MinLength(c.min.value)] else [])
      + (if c.pattern.Some? && !lex.matches(c.pattern.value, t) then [PatternRule] else [])
      + (if c.enum.Some? && t !in c.enum.value then [EnumRule] else [])
    case Int(i) =>
      (if c.max.Some? && i > c.max.value then [MaxValue(c.max.value)] else [])
      + (if c.min.Some? && i < c.min.value then [MinValue(c.min.value)] else [])
    case _ => []
  }

  function LimitsOf(s: Shape): Constraints {
    if s.BooleanShape? || s.StructureShape? then Constraints(None, None, None, None) else s.limits
  }

  /** `isBroken`: only strings and integers can be. */
  predicate IsBroken(lex: Lex, s: Shape, v: Data) {
    Broken(lex, LimitsOf(s), v) != []
  }

  function SizeRules(c: Constraints, size: nat): seq<Rule> {
    (if c.max.Some? && size > c.max.value then [MaxLength(c.max.value)] else [])
    + (if c.min.Some? && size < c.min.value then [MinLength(c.min.value)] else [])
  }

  function Each(path: string, shown: string, rules: seq<Rule>): (vs: seq<Violation>)
    ensures |vs| == |rules|
    ensures forall i :: 0 <= i < |rules| ==> vs[i].path == path && vs[i].shown == shown && vs[i].rule == rules[i]
  {
    seq(|rules|, i requires 0 <= i < |rules| => Violation(path, shown, rules[i]))
  }

  /** `check`. */
  ghost function Check(lex: Lex, s: Shape, path: string, v: Data): seq<Violation>
    requires WellShaped(lex, s) && Conforms(s, v)
    decreases s, 2, 0
  {
    match s
    case StructureShape(_, _, members) => CheckMembers(lex, s, path, v, true, |Ordered(lex, members)|)
    case ListShape(_, member, limits) =>
      Each(path, Display(lex, s, v), SizeRules(limits, |v.elems|))
      + (if member.StructureShape? then CheckElems(lex, s, path, v, |v.elems|)
         else if exists e :: e in v.elems && IsBroken(lex, member, e) then [Violation(path, Display(lex, s, v), ElementRule)]
         else [])
    case MapShape(_, key, value, limits) =>
      Each(path, Display(lex, s, v), SizeRules(limits, |MapKeys(v.entries.Keys)|))
      + (if exists k :: k in v.entries && IsBroken(lex, key, Text(k)) then [Violation(path, Display(lex, s, v), KeyRule)] else [])
      + (if value.StructureShape? then CheckEntries(lex, s, path, v, |MapKeys(v.entries.Keys)|)
         else if exists k :: k in v.entries && IsBroken(lex, value, v.entries[k]) then [Violation(path, Display(lex, s, v), ValueRule)]
         else [])
    case BooleanShape(_) => []
    case _ => Each(path, Display(lex, s, v), Broken(lex, s.limits, v))
  }

  function Below(path: string, name: string): string {
    if path == "" then name else path + "." + name
  }

  /** `checkStructure` for the first n members in order. At the top an absent integer is
      absent; inside a structure it is read as 0. */
  ghost function CheckMembers(lex: Lex, s: Shape, path: string, v: Data, nested: bool, n: nat): seq<Violation>
    requires s.StructureShape? && WellShaped(lex, s) && Conforms(s, v) && n <= |Ordered(lex, s.members)|
    decreases s, 1, n
  {
    if n == 0 then []
    else
      var m := Ordered(lex, s.members)[n - 1];
      assert m in s.members;
      CheckMembers(lex, s, path, v, nested, n - 1) + CheckMember(lex, s, path, v, nested, m)
  }

  ghost function CheckMember(lex: Lex, s: Shape, path: string, v: Data, nested: bool, m: Member): seq<Violation>
    requires s.StructureShape? && WellShaped(lex, s) && Conforms(s, v) && m in s.members
    decreases s, 0, 0
  {
    MemberConforms(lex, s, v, m);
    var at := Below(path, lex.lowerFirst(m.name));
    if m.name in v.entries then Check(lex, m.shape, at, v.entries[m.name])
    else if nested && m.shape.IntegerShape? then Check(lex, m.shape, at, Int(0))
    else if m.required then [Violation(at, Display(lex, m.shape, Nil), NotNull)]
    else []
  }

  /** The elements of a list of structures; null ones are passed over. */
  ghost function CheckElems(lex: Lex, s: Shape, path: string, v: Data, n: nat): seq<Violation>
    requires s.ListShape? && s.member.StructureShape? && WellShaped(lex, s) && Conforms(s, v) && n <= |v.elems|
    decreases s, 1, n
  {
    if n == 0 then []
    else
      var e := v.elems[n - 1];
      assert e in v.elems;
      CheckElems(lex, s, path, v, n - 1)
      + if e.Nil? then [] else Check(lex, s.member, path + "." + Decimal(n) + ".member", e)
  }

  ghost function CheckEntries(lex: Lex, s: Shape, path: string, v: Data, n: nat): seq<Violation>
    requires s.MapShape? && s.value.StructureShape? && WellShaped(lex, s) && Conforms(s, v) && n <= |MapKeys(v.entries.Keys)|
    decreases s, 1, n
  {
    if n == 0 then []
    else
      InMapKeys(v.entries.Keys);
      var k := MapKeys(v.entries.Keys)[n - 1];
      assert k in v.entries;
      CheckEntries(lex, s, path, v, n - 1)
      + if v.entries[k].Nil? then [] else Check(lex, s.value, path + "." + k + ".member", v.entries[k])
  }

  // ---- validity, with no order and no paths

  /** A text within its length bounds, of the pattern and among the values; a number within
      its bounds. */
  predicate ScalarOk(lex: Lex, s: Shape, v: Data) {
    var c := LimitsOf(s);
    match v
    case Text(t) =>
      && SizeOk(c, |t|)
      && (c.pattern.Some? ==> lex.matches(c.pattern.value, t))
      && (c.enum.Some? ==> exists i :: 0 <= i < |c.enum.value| && c.enum.value[i] == t)
    case Int(i) => (c.max.Some? ==> i <= c.max.value) && (c.min.Some? ==> i >= c.min.value)
    case _ => true
  }

  /** What breaks each rule. */
  predicate Breaks(lex: Lex, c: Constraints, v: Data, r: Rule) {
    match r
    case MaxLength(n) => v.Text? && c.max == Some(n) && |v.text| > n
    case MinLength(n) => v.Text? && c.min == Some(n) && |v.text| < n
    case PatternRule => v.Text? && c.pattern.Some? && !lex.matches(c.pattern.value, v.text)
    case EnumRule => v.Text? && c.enum.Some? && forall i :: 0 <= i < |c.enum.value| ==> c.enum.value[i] != v.text
    case MaxValue(n) => v.Int? && c.max == Some(n) && v.i > n
    case MinValue(n) => v.Int? && c.min == Some(n) && v.i < n
    case _ => false
  }

  function Place(r: Rule): nat {
    match r
    case MaxLength(_) => 0
    case MaxValue(_) => 0
    case MinLength(_) => 1
    case MinValue(_) => 1
    case PatternRule => 2
    case _ => 3
  }

  /** Reported are exactly the rules that are broken, each once: the upper bound, the lower
      bound, the pattern, the set of values. */
  lemma BrokenExactly(lex: Lex, c: Constraints, v: Data)
    ensures forall r :: r in Broken(lex, c, v) <==> Breaks(lex, c, v, r)
    ensures forall i, j :: 0 <= i < j < |Broken(lex, c, v)| ==> Place(Broken(lex, c, v)[i]) < Place(Broken(lex, c, v)[j])
  {
    if v.Text? {
      assert c.enum.Some? ==> (v.text in c.enum.value <==> exists i :: 0 <= i < |c.enum.value| && c.enum.value[i] == v.text);
    }
  }

  /** For the size of a list or map the same of its two bounds. */
  lemma SizeExactly(c: Constraints, size: nat)
    ensures forall r :: r in SizeRules(c, size) <==>
              match r
              case MaxLength(n) => c.max == Some(n) && size > n
              case MinLength(n) => c.min == Some(n) && size < n
              case _ => false
    ensures forall i, j :: 0 <= i < j < |SizeRules(c, size)| ==> Place(SizeRules(c, size)[i]) < Place(SizeRules(c, size)[j])
  {
  }

  lemma BrokenIff(lex: Lex, s: Shape, v: Data)
    ensures IsBroken(lex, s, v) <==> !ScalarOk(lex, s, v)
  {
    var c := LimitsOf(s);
    if v.Text? {
      assert c.enum.Some? ==> (v.text in c.enum.value <==> exists i :: 0 <= i < |c.enum.value| && c.enum.value[i] == v.text);
    }
  }

  predicate SizeOk(c: Constraints, size: nat) {
    (c.max.Some? ==> size <= c.max.value) && (c.min.Some? ==> size >= c.min.value)
  }

  /** The value keeps every constraint that is looked at: those of elements and entries
      only if these are structures, strings or integers. */
  ghost predicate Satisfies(lex: Lex, s: Shape, v: Data)
    requires WellShaped(lex, s) && Conforms(s, v)
    decreases s, 1
  {
    match s
    case StructureShape(_, _, _) => MembersOk(lex, s, v, true)
    case ListShape(_, member, limits) =>
      && SizeOk(limits, |v.elems|)
      && forall e :: e in v.elems && !e.Nil? ==> if member.StructureShape? then Satisfies(lex, member, e) else ScalarOk(lex, member, e)
    case MapShape(_, key, value, limits) =>
      && SizeOk(limits, |v.entries|)
      && forall k :: k in v.entries ==>
           && ScalarOk(lex, key, Text(k))
           && (!v.entries[k].Nil? ==>
                 if value.StructureShape? then Satisfies(lex, value, v.entries[k]) else ScalarOk(lex, value, v.entries[k]))
    case BooleanShape(_) => true
    case _ => ScalarOk(lex, s, v)
  }

  ghost predicate MembersOk(lex: Lex, s: Shape, v: Data, nested: bool)
    requires s.StructureShape? && WellShaped(lex, s) && Conforms(s, v)
    decreases s, 0
  {
    forall m :: m in s.members ==> MemberOk(lex, s, v, nested, m)
  }

  ghost predicate MemberOk(lex: Lex, s: Shape, v: Data, nested: bool, m: Member)
    requires s.StructureShape? && WellShaped(lex, s) && Conforms(s, v) && m in s.members
    decreases m.shape, 2
  {
    MemberConforms(lex, s, v, m);
    if m.name in v.entries then Satisfies(lex, m.shape, v.entries[m.name])
    else if nested && m.shape.IntegerShape? then Satisfies(lex, m.shape, Int(0))
    else !m.required
  }

  // ---- nothing is reported exactly for valid values

  lemma MapKeysSize(keys: set<string>)
    ensures |MapKeys(keys)| == |keys|
  {
    var listing := SortedKeys(keys);
    ListedDistinct(keys, listing);
    Paging.SortHolds(listing, ByBucket(Capacity(|listing|)));
    SizeOfListing(keys, listing);
  }

  lemma {:induction false} SizeOfListing(keys: set<string>, listing: seq<string>)
    requires NoRepeats(listing) && forall k :: k in listing <==> k in keys
    ensures |listing| == |keys|
  {
    if listing == [] {
      assert keys == {};
    } else {
      var n := |listing| - 1;
      assert listing == listing[..n] + [listing[n]];
      assert listing[n] !in listing[..n];
      SizeOfListing(keys - {listing[n]}, listing[..n]);
    }
  }

  /** The checks report nothing if and only if every constraint looked at is kept. */
  lemma {:induction false} CheckExact(lex: Lex, s: Shape, path: string, v: Data)
    requires WellShaped(lex, s) && Conforms(s, v)
    ensures Check(lex, s, path, v) == [] <==> Satisfies(lex, s, v)
    decreases s, 3, 0
  {
    if s.ListShape? {
      ListExact(lex, s, path, v);
    } else if s.MapShape? {
      MapExact(lex, s, path, v);
    } else if s.StructureShape? {
      CheckMembersExact(lex, s, path, v, true);
    } else {
      ScalarExact(lex, s, path, v);
    }
  }

  lemma ScalarExact(lex: Lex, s: Shape, path: string, v: Data)
    requires WellShaped(lex, s) && Conforms(s, v) && (s.StringShape? || s.IntegerShape? || s.BooleanShape?)
    ensures Check(lex, s, path, v) == [] <==> Satisfies(lex, s, v)
  {
    hide Broken, ScalarOk, Display, Render;
    BrokenIff(lex, s, v);
  }

  /** A structure inside a list or map: null, or kept. */
  ghost predicate PartOk(lex: Lex, s: Shape, e: Data)
    requires WellShaped(lex, s)
  {
    e.Nil? || (Conforms(s, e) && Satisfies(lex, s, e))
  }

  lemma {:induction false} ListExact(lex: Lex, s: Shape, path: string, v: Data)
    requires s.ListShape? && WellShaped(lex, s) && Conforms(s, v)
    ensures Check(lex, s, path, v) == [] <==> Satisfies(lex, s, v)
    decreases s, 2, 0
  {
    hide Render, Display, Broken, CheckElems;
    if s.member.StructureShape? {
      CheckElemsExact(lex, s, path, v, |v.elems|);
      ListParts(lex, s, v);
    } else {
      ScalarElems(lex, s, v);
    }
  }

  lemma ListParts(lex: Lex, s: Shape, v: Data)
    requires s.ListShape? && s.member.StructureShape? && WellShaped(lex, s) && Conforms(s, v)
    ensures Satisfies(lex, s, v) <==>
              SizeOk(s.limits, |v.elems|) && forall i :: 0 <= i < |v.elems| ==> PartOk(lex, s.member, v.elems[i])
  {
    var member, elems := s.member, v.elems;
    assert forall i :: 0 <= i < |elems| ==> elems[i] in elems;
    if forall i :: 0 <= i < |elems| ==> PartOk(lex, member, elems[i]) {
      forall e | e in elems && !e.Nil?
        ensures Satisfies(lex, member, e)
      {
        var i :| 0 <= i < |elems| && elems[i] == e;
        assert PartOk(lex, member, elems[i]);
      }
    }
  }

  lemma {:induction false} MapExact(lex: Lex, s: Shape, path: string, v: Data)
    requires s.MapShape? && WellShaped(lex, s) && Conforms(s, v)
    ensures Check(lex, s, path, v) == [] <==> Satisfies(lex, s, v)
    decreases s, 2, 0
  {
    hide Render, Display, MapKeys, Broken, CheckEntries;
    MapKeysSize(v.entries.Keys);
    assert |v.entries.Keys| == |v.entries|;
    if s.value.StructureShape? {
      EntriesExact(lex, s, path, v);
      MapParts(lex, s, v);
    } else {
      hide IsBroken, ScalarOk;
      ScalarKeys(lex, s, v);
      ScalarEntries(lex, s, v);
    }
  }

  lemma ScalarKeys(lex: Lex, s: Shape, v: Data)
    requires s.MapShape? && v.Map?
    ensures (exists k :: k in v.entries && IsBroken(lex, s.key, Text(k))) <==>
            !(forall k :: k in v.entries ==> ScalarOk(lex, s.key, Text(k)))
  {
    hide IsBroken, ScalarOk;
    forall k | k in v.entries
      ensures ScalarOk(lex, s.key, Text(k)) <==> !IsBroken(lex, s.key, Text(k))
    {
      BrokenIff(lex, s.key, Text(k));
    }
  }

  lemma ScalarElems(lex: Lex, s: Shape, v: Data)
    requires s.ListShape? && v.List? && !s.member.StructureShape?
    ensures (exists e :: e in v.elems && IsBroken(lex, s.member, e)) <==>
            !(forall e :: e in v.elems && !e.Nil? ==> ScalarOk(lex, s.member, e))
  {
    NilOk(lex, s.member);
    hide IsBroken, ScalarOk;
    forall e | e in v.elems
      ensures ScalarOk(lex, s.member, e) <==> !IsBroken(lex, s.member, e)
    {
      BrokenIff(lex, s.member, e);
    }
  }

  lemma NilOk(lex: Lex, s: Shape)
    ensures ScalarOk(lex, s, Nil)
  {
  }

  lemma ScalarEntries(lex: Lex, s: Shape, v: Data)
    requires s.MapShape? && v.Map? && !s.value.StructureShape?
    ensures (exists k :: k in v.entries && IsBroken(lex, s.value, v.entries[k])) <==>
            !(forall k :: k in v.entries ==> !v.entries[k].Nil? ==> ScalarOk(lex, s.value, v.entries[k]))
  {
    NilOk(lex, s.value);
    hide IsBroken, ScalarOk;
    forall k | k in v.entries
      ensures ScalarOk(lex, s.value, v.entries[k]) <==> !IsBroken(lex, s.value, v.entries[k])
    {
      BrokenIff(lex, s.value, v.entries[k]);
    }
  }

  lemma MapParts(lex: Lex, s: Shape, v: Data)
    requires s.MapShape? && s.value.StructureShape? && WellShaped(lex, s) && Conforms(s, v)
    ensures Satisfies(lex, s, v) <==>
              && SizeOk(s.limits, |v.entries|)
              && !(exists k :: k in v.entries && IsBroken(lex, s.key, Text(k)))
              && forall k :: k in v.entries ==> PartOk(lex, s.value, v.entries[k])
  {
    hide Broken, ScalarOk, IsBroken, Satisfies, SizeOk;
    ScalarKeys(lex, s, v);
    MapSatisfies(lex, s, v);
  }

  lemma MapSatisfies(lex: Lex, s: Shape, v: Data)
    requires s.MapShape? && s.value.StructureShape? && WellShaped(lex, s) && Conforms(s, v)
    ensures Satisfies(lex, s, v) <==>
              && SizeOk(s.limits, |v.entries|)
              && (forall k :: k in v.entries ==> ScalarOk(lex, s.key, Text(k)))
              && forall k :: k in v.entries ==> PartOk(lex, s.value, v.entries[k])
  {
    hide ScalarOk, SizeOk;
  }

  /** Every key is among the keys that are gone through. */
  lemma EntriesExact(lex: Lex, s: Shape, path: string, v: Data)
    requires s.MapShape? && s.value.StructureShape? && WellShaped(lex, s) && Conforms(s, v)
    ensures CheckEntries(lex, s, path, v, |MapKeys(v.entries.Keys)|) == [] <==>
              forall k :: k in v.entries ==> PartOk(lex, s.value, v.entries[k])
    decreases s, 1, |MapKeys(v.entries.Keys)| + 1
  {
    hide Check, CheckEntries, PartOk, MapKeys;
    var keys := MapKeys(v.entries.Keys);
    CheckEntriesExact(lex, s, path, v, |keys|);
    InMapKeys(v.entries.Keys);
    assert forall k :: k in v.entries <==> k in keys;
    assert forall i :: 0 <= i < |keys| ==> keys[i] in v.entries;
  }

  lemma {:induction false} CheckMembersExact(lex: Lex, s: Shape, path: string, v: Data, nested: bool)
    requires s.StructureShape? && WellShaped(lex, s) && Conforms(s, v)
    ensures CheckMembers(lex, s, path, v, nested, |Ordered(lex, s.members)|) == [] <==> MembersOk(lex, s, v, nested)
    decreases s, 1, 0
  {
    hide Ordered, MemberOk, CheckMember, Conforms, WellShaped;
    FirstMembersExact(lex, s, path, v, nested, |Ordered(lex, s.members)|);
    NamesDistinct(lex, s);
    OrderedOnce(lex, s.members);
    var ms := Ordered(lex, s.members);
    assert forall i :: 0 <= i < |ms| ==> ms[i] in ms;
  }

  lemma NamesDistinct(lex: Lex, s: Shape)
    requires s.StructureShape? && WellShaped(lex, s)
    ensures NoRepeats(Names(lex, s.members))
  {
  }

  lemma {:induction false} FirstMembersExact(lex: Lex, s: Shape, path: string, v: Data, nested: bool, n: nat)
    requires s.StructureShape? && WellShaped(lex, s) && Conforms(s, v) && n <= |Ordered(lex, s.members)|
    ensures CheckMembers(lex, s, path, v, nested, n) == [] <==>
              forall i :: 0 <= i < n ==> MemberOk(lex, s, v, nested, Ordered(lex, s.members)[i])
    decreases s, 0, n
  {
    hide Ordered, Conforms, WellShaped, MemberOk, CheckMember;
    if n > 0 {
      var m := Ordered(lex, s.members)[n - 1];
      assert m in s.members;
      FirstMembersExact(lex, s, path, v, nested, n - 1);
      MemberExact(lex, s, path, v, nested, m);
    }
  }

  lemma {:induction false} MemberExact(lex: Lex, s: Shape, path: string, v: Data, nested: bool, m: Member)
    requires s.StructureShape? && WellShaped(lex, s) && Conforms(s, v) && m in s.members
    ensures CheckMember(lex, s, path, v, nested, m) == [] <==> MemberOk(lex, s, v, nested, m)
    decreases m.shape, 3
  {
    hide Check, Satisfies, Display;
    MemberConforms(lex, s, v, m);
    var at := Below(path, lex.lowerFirst(m.name));
    if m.name in v.entries {
      CheckExact(lex, m.shape, at, v.entries[m.name]);
    } else if nested && m.shape.IntegerShape? {
      CheckExact(lex, m.shape, at, Int(0));
    }
  }

  lemma {:induction false} CheckElemsExact(lex: Lex, s: Shape, path: string, v: Data, n: nat)
    requires s.ListShape? && s.member.StructureShape? && WellShaped(lex, s) && Conforms(s, v) && n <= |v.elems|
    ensures CheckElems(lex, s, path, v, n) == [] <==>
              forall i :: 0 <= i < n ==> PartOk(lex, s.member, v.elems[i])
    decreases s, 1, n
  {
    hide Check, Satisfies;
    if n > 0 {
      var e := v.elems[n - 1];
      assert e in v.elems;
      hide Conforms;
      CheckElemsExact(lex, s, path, v, n - 1);
      if !e.Nil? {
        CheckExact(lex, s.member, path + "." + Decimal(n) + ".member", e);
      }
      assert PartOk(lex, s.member, e) <==> e.Nil? || Satisfies(lex, s.member, e);
      hide PartOk;
    }
  }

  lemma {:induction false} CheckEntriesExact(lex: Lex, s: Shape, path: string, v: Data, n: nat)
    requires s.MapShape? && s.value.StructureShape? && WellShaped(lex, s) && Conforms(s, v) && n <= |MapKeys(v.entries.Keys)|
    ensures CheckEntries(lex, s, path, v, n) == [] <==>
              forall i :: 0 <= i < n ==>
                var k := MapKeys(v.entries.Keys)[i];
                k in v.entries && PartOk(lex, s.value, v.entries[k])
    decreases s, 1, n
  {
    hide Check, Satisfies, MapKeys;
    InMapKeys(v.entries.Keys);
    var keys := MapKeys(v.entries.Keys);
    assert forall i :: 0 <= i < n ==> keys[i] in keys;
    if n > 0 {
      CheckEntriesExact(lex, s, path, v, n - 1);
      var k := keys[n - 1];
      if !v.entries[k].Nil? {
        CheckExact(lex, s.value, path + "." + k + ".member", v.entries[k]);
      }
    }
  }

  // ---- the loops

  method ListMapKeys(keys: set<string>) returns (listing: seq<string>)
    ensures listing == MapKeys(keys)
  {
    var sorted := SortKeys(keys);
    listing := JavaOrder(sorted, Capacity(|sorted|));
  }

  method RenderValue(lex: Lex, s: Shape, v: Data) returns (text: string)
    requires WellShaped(lex, s) && (v.Nil? || Conforms(s, v))
    ensures text == Render(lex, s, v)
    decreases s
  {
    hide RenderElems, RenderEntries, RenderMembers, MapKeys;
    if v.Nil? {
      return "null";
    }
    match s {
      case StringShape(_, _) => text := v.text;
      case IntegerShape(_, _) => text := if v.i < 0 then "-" + Decimal(-v.i) else Decimal(v.i);
      case BooleanShape(_) => text := if v.flag then "true" else "false";
      case ListShape(_, member, _) => text := RenderListParts(lex, s, v);
      case MapShape(_, _, value, _) => text := RenderMapParts(lex, s, v);
      case StructureShape(_, name, members) => text := RenderStructureParts(lex, s, v);
    }
  }

  method RenderListParts(lex: Lex, s: Shape, v: Data) returns (text: string)
    requires s.ListShape? && WellShaped(lex, s) && Conforms(s, v)
    ensures text == "[" + RenderElems(lex, s, v, |v.elems|) + "]"
    decreases s, 0
  {
    hide Render;
    var parts := "";
    for n := 0 to |v.elems|
      invariant parts == RenderElems(lex, s, v, n)
    {
      assert v.elems[n] in v.elems;
      var part := RenderValue(lex, s.member, v.elems[n]);
      parts := parts + (if n > 0 then ", " else "") + part;
    }
    text := "[" + parts + "]";
  }

  method RenderMapParts(lex: Lex, s: Shape, v: Data) returns (text: string)
    requires s.MapShape? && WellShaped(lex, s) && Conforms(s, v)
    ensures text == "{" + RenderEntries(lex, s, v, |MapKeys(v.entries.Keys)|) + "}"
    decreases s, 0
  {
    hide Render, MapKeys;
    var keys := ListMapKeys(v.entries.Keys);
    var parts := "";
    InMapKeys(v.entries.Keys);
    for n := 0 to |keys|
      invariant parts == RenderEntries(lex, s, v, n)
    {
      assert keys[n] in keys;
      var part := RenderValue(lex, s.value, v.entries[keys[n]]);
      parts := parts + (if n > 0 then ", " else "") + (keys[n] + "=" + part);
    }
    text := "{" + parts + "}";
  }

  method RenderStructureParts(lex: Lex, s: Shape, v: Data) returns (text: string)
    requires s.StructureShape? && WellShaped(lex, s) && Conforms(s, v)
    ensures text == s.name + "(" + RenderMembers(lex, s, v, |s.members|) + ")"
    decreases s, 0
  {
    hide Render;
    var parts := "";
    for n := 0 to |s.members|
      invariant parts == RenderMembers(lex, s, v, n)
    {
      var m := s.members[n];
      MemberConforms(lex, s, v, m);
      var val := if m.name in v.entries then v.entries[m.name] else Nil;
      if val.Nil? && m.shape.IntegerShape? {
        val := Int(0);
      }
      var part := RenderValue(lex, m.shape, val);
      parts := parts + (if n > 0 then ", " else "") + (lex.lowerFirst(m.name) + "=" + part);
    }
    text := s.name + "(" + parts + ")";
  }

  method DisplayValue(lex: Lex, s: Shape, v: Data) returns (text: string)
    requires WellShaped(lex, s) && (v.Nil? || Conforms(s, v))
    ensures text == Display(lex, s, v)
  {
    hide Render;
    if s.sensitive || (s.ListShape? && s.member.sensitive) || (s.MapShape? && s.value.sensitive) {
      return "";
    }
    if v.Nil? {
      return "null";
    }
    text := RenderValue(lex, s, v);
    text := "'" + text + "'";
  }

  /** `check`. */
  method CheckValue(lex: Lex, s: Shape, path: string, v: Data) returns (out: seq<Violation>)
    requires WellShaped(lex, s) && Conforms(s, v)
    ensures out == Check(lex, s, path, v)
    decreases s, 2
  {
    hide Render, Display, CheckMembers, Broken;
    match s {
      case StructureShape(_, _, _) => out := CheckStructure(lex, s, path, v, true);
      case ListShape(_, _, _) => out := CheckList(lex, s, path, v);
      case MapShape(_, _, _, _) => out := CheckMap(lex, s, path, v);
      case BooleanShape(_) => out := [];
      case _ =>
        var shown := DisplayValue(lex, s, v);
        out := Each(path, shown, Broken(lex, s.limits, v));
    }
  }

  /** `checkStructure`. */
  method CheckStructure(lex: Lex, s: Shape, path: string, v: Data, nested: bool) returns (out: seq<Violation>)
    requires s.StructureShape? && WellShaped(lex, s) && Conforms(s, v)
    ensures out == CheckMembers(lex, s, path, v, nested, |Ordered(lex, s.members)|)
    decreases s, 1
  {
    hide Render, Display, Check;
    var ms := Ordered(lex, s.members);
    out := [];
    for n := 0 to |ms|
      invariant out == CheckMembers(lex, s, path, v, nested, n)
    {
      var m := ms[n];
      assert m in s.members;
      MemberConforms(lex, s, v, m);
      var name := lex.lowerFirst(m.name);
      var at := if path == "" then name else path + "." + name;
      var more: seq<Violation> := [];
      if m.name in v.entries {
        more := CheckValue(lex, m.shape, at, v.entries[m.name]);
      } else if nested && m.shape.IntegerShape? {
        more := CheckValue(lex, m.shape, at, Int(0));
      } else if m.required {
        var shown := DisplayValue(lex, m.shape, Nil);
        more := [Violation(at, shown, NotNull)];
      }
      out := out + more;
    }
  }

  /** `checkList`. */
  method CheckList(lex: Lex, s: Shape, path: string, v: Data) returns (out: seq<Violation>)
    requires s.ListShape? && WellShaped(lex, s) && Conforms(s, v)
    ensures out == Check(lex, s, path, v)
    decreases s, 1
  {
    hide Render, Display, Broken;
    var shown := DisplayValue(lex, s, v);
    out := Each(path, shown, SizeRules(s.limits, |v.elems|));
    if s.member.StructureShape? {
      var more := CheckParts(lex, s, path, v);
      out := out + more;
    } else if exists e :: e in v.elems && IsBroken(lex, s.member, e) {
      out := out + [Violation(path, shown, ElementRule)];
    }
  }

  method CheckParts(lex: Lex, s: Shape, path: string, v: Data) returns (out: seq<Violation>)
    requires s.ListShape? && s.member.StructureShape? && WellShaped(lex, s) && Conforms(s, v)
    ensures out == CheckElems(lex, s, path, v, |v.elems|)
    decreases s, 0
  {
    hide Check;
    out := [];
    for n := 0 to |v.elems|
      invariant out == CheckElems(lex, s, path, v, n)
    {
      assert v.elems[n] in v.elems;
      if !v.elems[n].Nil? {
        var more := CheckValue(lex, s.member, path + "." + Decimal(n + 1) + ".member", v.elems[n]);
        out := out + more;
      }
    }
  }

  /** `checkMap`. */
  method CheckMap(lex: Lex, s: Shape, path: string, v: Data) returns (out: seq<Violation>)
    requires s.MapShape? && WellShaped(lex, s) && Conforms(s, v)
    ensures out == Check(lex, s, path, v)
    decreases s, 1
  {
    hide Render, Display, MapKeys, CheckEntries, Broken, IsBroken, Each, SizeRules;
    var shown := DisplayValue(lex, s, v);
    var keys := ListMapKeys(v.entries.Keys);
    InMapKeys(v.entries.Keys);
    out := Each(path, shown, SizeRules(s.limits, |keys|));
    if exists k :: k in v.entries && IsBroken(lex, s.key, Text(k)) {
      out := out + [Violation(path, shown, KeyRule)];
    }
    if s.value.StructureShape? {
      var more := CheckKeyedParts(lex, s, path, v, keys);
      out := out + more;
    } else if exists k :: k in v.entries && IsBroken(lex, s.value, v.entries[k]) {
      out := out + [Violation(path, shown, ValueRule)];
    }
  }

  method CheckKeyedParts(lex: Lex, s: Shape, path: string, v: Data, keys: seq<string>) returns (out: seq<Violation>)
    requires s.MapShape? && s.value.StructureShape? && WellShaped(lex, s) && Conforms(s, v)
    requires keys == MapKeys(v.entries.Keys)
    ensures out == CheckEntries(lex, s, path, v, |keys|)
    decreases s, 0
  {
    hide Check, MapKeys;
    InMapKeys(v.entries.Keys);
    out := [];
    for n := 0 to |keys|
      invariant out == CheckEntries(lex, s, path, v, n)
    {
      var k := keys[n];
      assert k in v.entries;
      if !v.entries[k].Nil? {
        var more := CheckValue(lex, s.value, path + "." + k + ".member", v.entries[k]);
        out := out + more;
      }
    }
  }

  /** `validateInput`: accepted exactly if every member keeps its constraints. */
  method ValidateInput(lex: Lex, s: Shape, v: Data) returns (ok: bool, violations: seq<Violation>)
    requires s.StructureShape? && WellShaped(lex, s) && Conforms(s, v)
    ensures ok <==> MembersOk(lex, s, v, false)
    ensures violations != [] ==> violations == CheckMembers(lex, s, "", v, false, |Ordered(lex, s.members)|)
  {
    hide Conforms, Check, Ordered;
    var pool := FindMember(s.members, "UserPoolId");
    PoolRequired(lex, s, v);
    if pool.Some? && pool.value.required && "UserPoolId" !in v.entries {
      return false, [];
    }
    CheckMembersExact(lex, s, "", v, false);
    violations := CheckStructure(lex, s, "", v, false);
    ok := violations == [];
  }

  lemma PoolRequired(lex: Lex, s: Shape, v: Data)
    requires s.StructureShape? && WellShaped(lex, s) && Conforms(s, v)
    ensures v.Map?
    ensures var pool := FindMember(s.members, "UserPoolId");
            pool.Some? && pool.value.required && "UserPoolId" !in v.entries ==> !MembersOk(lex, s, v, false)
  {
    var pool := FindMember(s.members, "UserPoolId");
    if pool.Some? {
      FoundIsMember(s.members, "UserPoolId");
      if pool.value.required && "UserPoolId" !in v.entries {
        assert !MemberOk(lex, s, v, false, pool.value);
      }
    }
  }

  lemma {:induction false} FoundIsMember(members: seq<Member>, name: string)
    requires FindMember(members, name).Some?
    ensures FindMember(members, name).value in members && FindMember(members, name).value.name == name
  {
    if members[0].name != name {
      FoundIsMember(members[1..], name);
    }
  }
}
