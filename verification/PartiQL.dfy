/** PartiQL WHERE conditions and their translation into a filter expression:
    the printed text is tokenized, parsed and evaluated again, and the result is
    the conjunction of the conditions. */
module PartiQL {
  import opened Values
  import opened Lexer
  import opened Parser
  import opened Evaluation
  import opened RoundTrip

  datatype WhereOp = WEq | WNe | WBang | WLt | WLe | WGt | WGe

  /** One condition of a WHERE clause. `WNe` is written <>, `WBang` !=. */
  datatype Where =
    | Simple(attr: string, op: WhereOp, val: Value)
    | Range(attr: string, lo: Value, hi: Value)
    | OneOf(attr: string, vals: seq<Value>)

  /** What a condition says of an item, directly. An absent attribute satisfies
      only "not equal". */
  predicate Holds(lib: Lib, w: Where, item: Item) {
    var v := Lookup(item, w.attr);
    match w
    case Simple(_, op, x) =>
      (match op
       case WEq => v == Some(x)
       case WNe => v != Some(x)
       case WBang => v != Some(x)
       case WLt => v.Some? && Less(lib, v.value, x)
       case WLe => v.Some? && LessOrSame(lib, v.value, x)
       case WGt => v.Some? && Greater(lib, v.value, x)
       case WGe => v.Some? && GreaterOrSame(lib, v.value, x))
    case Range(_, lo, hi) => v.Some? && GreaterOrSame(lib, v.value, lo) && LessOrSame(lib, v.value, hi)
    case OneOf(_, vals) => v.Some? && v.value in vals
  }

  predicate Less(lib: Lib, a: Value, b: Value) {
    var c := CompareValues(lib, Some(a), Some(b)); c.Some? && c.value < 0
  }

  predicate LessOrSame(lib: Lib, a: Value, b: Value) {
    var c := CompareValues(lib, Some(a), Some(b)); c.Some? && c.value <= 0
  }

  predicate Greater(lib: Lib, a: Value, b: Value) {
    var c := CompareValues(lib, Some(a), Some(b)); c.Some? && c.value > 0
  }

  predicate GreaterOrSame(lib: Lib, a: Value, b: Value) {
    var c := CompareValues(lib, Some(a), Some(b)); c.Some? && c.value >= 0
  }

  predicate AllHold(lib: Lib, conds: seq<Where>, item: Item) {
    forall i :: 0 <= i < |conds| ==> Holds(lib, conds[i], item)
  }

  // ---- placeholders

  /** The value placeholders of the i-th condition. */
  datatype Slot = Single(i: nat) | Low(i: nat) | High(i: nat) | Nth(i: nat, j: nat)

  function NameText(i: nat): string { "#pqf" + Decimal(i) }

  function SlotSuffix(s: Slot): string {
    match s
    case Single(_) => ""
    case Low(_) => "lo"
    case High(_) => "hi"
    case Nth(_, j) => "_" + Decimal(j)
  }

  function SlotText(s: Slot): string { ":pqf" + (Decimal(s.i) + SlotSuffix(s)) }

  lemma NameTextInjective(i: nat, j: nat)
    ensures NameText(i) == NameText(j) ==> i == j
  {
    if NameText(i) == NameText(j) {
      assert NameText(i)[4..] == Decimal(i) && NameText(j)[4..] == Decimal(j);
      NaturalOfDecimal(i);
      NaturalOfDecimal(j);
    }
  }

  lemma SlotTextInjective(s: Slot, t: Slot)
    ensures SlotText(s) == SlotText(t) ==> s == t
  {
    if SlotText(s) == SlotText(t) {
      var a, b := SlotSuffix(s), SlotSuffix(t);
      assert SlotText(s)[4..] == Decimal(s.i) + a && SlotText(t)[4..] == Decimal(t.i) + b;
      DecimalPrefixUnique(s.i, a, t.i, b);
      if s.Nth? && t.Nth? {
        assert a[1..] == Decimal(s.j) && b[1..] == Decimal(t.j);
        NaturalOfDecimal(s.j);
        NaturalOfDecimal(t.j);
      }
    }
  }

  lemma PlaceholdersSpellable(i: nat, s: Slot)
    ensures Spellable(NameRef(NameText(i))) && Spellable(ValRef(SlotText(s)))
  {
    var n, v := NameText(i), SlotText(s);
    assert n[1..] == "pqf" + Decimal(i);
    assert v[1..] == "pqf" + (Decimal(s.i) + SlotSuffix(s));
    assert AllWord(SlotSuffix(s)) && AllWord(Decimal(s.i)) && AllWord(Decimal(i));
  }

  // ---- the maps that bind them, as the loop fills them in

  function NamesOf(conds: seq<Where>, n: nat): map<string, string>
    requires n <= |conds|
  {
    if n == 0 then map[] else NamesOf(conds, n - 1)[NameText(n - 1) := conds[n - 1].attr]
  }

  function InValues(m: map<string, Value>, i: nat, vals: seq<Value>, n: nat): map<string, Value>
    requires n <= |vals|
  {
    if n == 0 then m else InValues(m, i, vals, n - 1)[SlotText(Nth(i, n - 1)) := vals[n - 1]]
  }

  function CondValues(m: map<string, Value>, i: nat, w: Where): map<string, Value> {
    match w
    case Simple(_, _, v) => m[SlotText(Single(i)) := v]
    case Range(_, lo, hi) => m[SlotText(Low(i)) := lo][SlotText(High(i)) := hi]
    case OneOf(_, vals) => InValues(m, i, vals, |vals|)
  }

  function ValuesOf(conds: seq<Where>, n: nat): map<string, Value>
    requires n <= |conds|
  {
    if n == 0 then map[] else CondValues(ValuesOf(conds, n - 1), n - 1, conds[n - 1])
  }

  /** The slots a condition uses, and what each holds. */
  predicate UsesSlot(w: Where, s: Slot) {
    match w
    case Simple(_, _, _) => s.Single?
    case Range(_, _, _) => s.Low? || s.High?
    case OneOf(_, vals) => s.Nth? && s.j < |vals|
  }

  function SlotValue(w: Where, s: Slot): Value
    requires UsesSlot(w, s)
  {
    match w
    case Simple(_, _, v) => v
    case Range(_, lo, hi) => if s.Low? then lo else hi
    case OneOf(_, vals) => vals[s.j]
  }

  lemma {:induction false} NameBound(conds: seq<Where>, n: nat, i: nat)
    requires i < n <= |conds|
    ensures NameText(i) in NamesOf(conds, n) && NamesOf(conds, n)[NameText(i)] == conds[i].attr
  {
    hide NameText;
    NameTextInjective(i, n - 1);
    if i < n - 1 {
      NameBound(conds, n - 1, i);
    }
  }

  lemma {:induction false} InValueBound(m: map<string, Value>, i: nat, vals: seq<Value>, n: nat, s: Slot)
    requires n <= |vals|
    ensures var m' := InValues(m, i, vals, n);
            if s.i == i && s.Nth? && s.j < n
            then SlotText(s) in m' && m'[SlotText(s)] == vals[s.j]
            else (SlotText(s) in m' <==> SlotText(s) in m)
                 && (SlotText(s) in m ==> m'[SlotText(s)] == m[SlotText(s)])
  {
    hide SlotText;
    if n > 0 {
      SlotTextInjective(s, Nth(i, n - 1));
      InValueBound(m, i, vals, n - 1, s);
    }
  }

  lemma CondValueBound(m: map<string, Value>, i: nat, w: Where, s: Slot)
    ensures var m' := CondValues(m, i, w);
            if s.i == i && UsesSlot(w, s)
            then SlotText(s) in m' && m'[SlotText(s)] == SlotValue(w, s)
            else (SlotText(s) in m' <==> SlotText(s) in m)
                 && (SlotText(s) in m ==> m'[SlotText(s)] == m[SlotText(s)])
  {
    hide SlotText;
    match w {
      case Simple(_, _, _) => SlotTextInjective(s, Single(i));
      case Range(_, _, _) =>
        SlotTextInjective(s, Low(i));
        SlotTextInjective(s, High(i));
      case OneOf(_, vals) => InValueBound(m, i, vals, |vals|, s);
    }
  }

  /** No placeholder is bound twice: each slot still holds its own value at the end. */
  lemma {:induction false} ValueBound(conds: seq<Where>, n: nat, s: Slot)
    requires s.i < n <= |conds| && UsesSlot(conds[s.i], s)
    ensures SlotText(s) in ValuesOf(conds, n) && ValuesOf(conds, n)[SlotText(s)] == SlotValue(conds[s.i], s)
  {
    hide SlotText, CondValues;
    CondValueBound(ValuesOf(conds, n - 1), n - 1, conds[n - 1], s);
    if s.i < n - 1 {
      ValueBound(conds, n - 1, s);
    }
  }

  // ---- the printed text

  function OpText(op: WhereOp): string {
    match op
    case WEq => "="
    case WNe => "<>"
    case WBang => "<>"
    case WLt => "<"
    case WLe => "<="
    case WGt => ">"
    case WGe => ">="
  }

  /** The references of an IN list, separated by ", ", from the j-th on. */
  function InText(i: nat, n: nat, j: nat): string
    requires j <= n
    decreases n - j
  {
    if j == n then ""
    else SlotText(Nth(i, j)) + (if j + 1 < n then ", " + InText(i, n, j + 1) else "")
  }

  function PartText(i: nat, w: Where): string {
    match w
    case Simple(_, op, _) => NameText(i) + " " + OpText(op) + " " + SlotText(Single(i))
    case Range(_, _, _) => NameText(i) + " BETWEEN " + SlotText(Low(i)) + " AND " + SlotText(High(i))
    case OneOf(_, vals) => NameText(i) + " IN (" + InText(i, |vals|, 0) + ")"
  }

  /** The parts from the i-th on, joined with " AND ". */
  function FilterText(conds: seq<Where>, i: nat): string
    requires i <= |conds|
    decreases |conds| - i
  {
    if i == |conds| then ""
    else PartText(i, conds[i]) + (if i + 1 < |conds| then " AND " + FilterText(conds, i + 1) else "")
  }

  /** The inner loop over an IN list: binds each value and joins the references. */
  method InRefs(i: nat, vals: seq<Value>, values: map<string, Value>)
    returns (list: string, values': map<string, Value>)
    ensures list == InText(i, |vals|, 0) && values' == InValues(values, i, vals, |vals|)
  {
    hide SlotText, InText;
    var valRefs: seq<string> := [];
    values' := values;
    for j := 0 to |vals|
      invariant |valRefs| == j && forall k :: 0 <= k < j ==> valRefs[k] == SlotText(Nth(i, k))
      invariant values' == InValues(values, i, vals, j)
    {
      var ref := SlotText(Nth(i, j));
      values' := values'[ref := vals[j]];
      valRefs := valRefs + [ref];
    }
    list := Join(valRefs, ", ");
    JoinedRefs(i, valRefs, 0);
  }

  /** One turn of the loop: the part for the i-th condition and the grown value map. */
  method PartOf(i: nat, c: Where, values: map<string, Value>)
    returns (part: string, values': map<string, Value>)
    ensures part == PartText(i, c) && values' == CondValues(values, i, c)
  {
    hide SlotText, NameText, InText, InValues;
    var nameRef := NameText(i);
    match c {
      case Simple(_, op, v) =>
        var valRef := SlotText(Single(i));
        values' := values[valRef := v];
        part := nameRef + " " + OpText(op) + " " + valRef;
      case Range(_, lo, hi) =>
        var loRef, hiRef := SlotText(Low(i)), SlotText(High(i));
        values' := values[loRef := lo];
        values' := values'[hiRef := hi];
        part := nameRef + " BETWEEN " + loRef + " AND " + hiRef;
      case OneOf(_, vals) =>
        var list;
        list, values' := InRefs(i, vals, values);
        part := nameRef + " IN (" + list + ")";
    }
  }

  /** `pqCondsToFilterExpr`. */
  method CondsToFilterExpr(conds: seq<Where>)
    returns (text: string, names: map<string, string>, values: map<string, Value>)
    ensures text == FilterText(conds, 0)
    ensures names == NamesOf(conds, |conds|) && values == ValuesOf(conds, |conds|)
  {
    hide PartText, NameText, CondValues, FilterText;
    names, values := map[], map[];
    var parts: seq<string> := [];
    for i := 0 to |conds|
      invariant |parts| == i && forall k :: 0 <= k < i ==> parts[k] == PartText(k, conds[k])
      invariant names == NamesOf(conds, i) && values == ValuesOf(conds, i)
    {
      names := names[NameText(i) := conds[i].attr];
      var part;
      part, values := PartOf(i, conds[i], values);
      parts := parts + [part];
    }
    text := Join(parts, " AND ");
    JoinedParts(conds, parts, 0);
  }

  /** `strings.Join`. */
  function JoinFrom(parts: seq<string>, sep: string, i: nat): string
    requires i <= |parts|
    decreases |parts| - i
  {
    if i == |parts| then ""
    else parts[i] + (if i + 1 < |parts| then sep + JoinFrom(parts, sep, i + 1) else "")
  }

  function Join(parts: seq<string>, sep: string): string { JoinFrom(parts, sep, 0) }

  lemma {:induction false} JoinedRefs(i: nat, refs: seq<string>, j: nat)
    requires j <= |refs| && forall k :: 0 <= k < |refs| ==> refs[k] == SlotText(Nth(i, k))
    ensures JoinFrom(refs, ", ", j) == InText(i, |refs|, j)
    decreases |refs| - j
  {
    hide SlotText;
    if j < |refs| {
      JoinedRefs(i, refs, j + 1);
    }
  }

  lemma {:induction false} JoinedParts(conds: seq<Where>, parts: seq<string>, i: nat)
    requires i <= |parts| == |conds| && forall k :: 0 <= k < |parts| ==> parts[k] == PartText(k, conds[k])
    ensures JoinFrom(parts, " AND ", i) == FilterText(conds, i)
    decreases |parts| - i
  {
    hide PartText;
    if i < |parts| {
      JoinedParts(conds, parts, i + 1);
    }
  }
}
