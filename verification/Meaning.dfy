/** What a filter expression says of an item, told without the evaluator: paths are
    followed as document paths, numbers compare as numbers and texts at the first place
    where they differ. The evaluator answers exactly this. */
module Meaning {
  import opened Values
  import opened Lexer
  import opened Parser
  import opened RoundTrip
  import opened ParsedTrees
  import opened Evaluation
  import DocPath

  // ---- values

  function Real(b: Bindings, name: string): string {
    if "#" <= name && name in b.names then b.names[name] else name
  }

  function RealSeg(b: Bindings, seg: Seg): Seg {
    match seg
    case Attr(name) => Attr(Real(b, name))
    case Index(i) => Index(i)
  }

  function RealPath(b: Bindings, segs: seq<Seg>): (p: seq<Seg>)
    ensures |p| == |segs| && forall i :: 0 <= i < |segs| ==> p[i] == RealSeg(b, segs[i])
  {
    seq(|segs|, i requires 0 <= i < |segs| => RealSeg(b, segs[i]))
  }

  /** The document path an operand names, its placeholders replaced. */
  function PathOf(b: Bindings, o: Operand): seq<Seg> {
    match o
    case NameOp(ref) => [Attr(Real(b, ref))]
    case PlainOp(name) => [Attr(name)]
    case PathOp(segs) => RealPath(b, segs)
    case _ => []
  }

  /** How long a text, how large a collection is; a BOOL and a NULL have no size. */
  function Length(lib: Lib, v: Value): nat {
    match v
    case S(s) => |s|
    case N(text) => |text|
    case B(encoded) => lib.decodedLength(encoded)
    case SS(e) => |e|
    case NS(e) => |e|
    case BS(e) => |e|
    case L(list) => |list|
    case M(fields) => |fields|
    case _ => 0
  }

  predicate Sizable(v: Value) { !v.Bool? && !v.Null? }

  function ValueOf(lib: Lib, b: Bindings, item: Item, o: Operand): Option<Value> {
    match o
    case ValOp(ref) => Lookup(b.values, ref)
    case SizeOp(path) =>
      var v := ValueOf(lib, b, item, path);
      if v.None? then None else Some(N(Decimal(Length(lib, v.value))))
    case _ => DocPath.GetPath(item, PathOf(b, o))
  }

  /** The operand asks for a size that is not there. */
  predicate Unmeasured(lib: Lib, b: Bindings, item: Item, o: Operand) {
    o.SizeOp? && var v := ValueOf(lib, b, item, o.path); v.Some? && !Sizable(v.value)
  }

  // ---- comparisons

  /** The texts agree up to the i-th place, where x ends or has the lesser character. */
  predicate LessAt(x: string, y: string, i: nat) {
    i <= |x| && i < |y| && x[..i] == y[..i] && (i == |x| || x[i] < y[i])
  }

  /** x is a proper beginning of y, or is less at the first place where they differ. */
  ghost predicate TextBelow(x: string, y: string) {
    exists i: nat :: LessAt(x, y, i)
  }

  ghost predicate Below(lib: Lib, v: Value, w: Value) {
    match v
    case S(x) => w.S? && TextBelow(x, w.str)
    case N(x) => w.N? && lib.number(x) < lib.number(w.num)
    case _ => TextBelow(lib.json(v), lib.json(w))
  }

  ghost predicate Above(lib: Lib, v: Value, w: Value) {
    match v
    case S(x) => w.S? && TextBelow(w.str, x)
    case N(x) => w.N? && lib.number(x) > lib.number(w.num)
    case _ => TextBelow(lib.json(w), lib.json(v))
  }

  /** Neither comes before the other. */
  predicate Level(lib: Lib, v: Value, w: Value) {
    match v
    case S(x) => w.S? && x == w.str
    case N(x) => w.N? && lib.number(x) == lib.number(w.num)
    case _ => lib.json(v) == lib.json(w)
  }

  lemma {:induction false} TextOrdered(x: string, y: string)
    ensures CompareText(x, y) < 0 <==> TextBelow(x, y)
    ensures CompareText(x, y) > 0 <==> TextBelow(y, x)
    ensures CompareText(x, y) == 0 <==> x == y
  {
    TextOpposite(x, y);
    BelowIff(x, y);
    BelowIff(y, x);
  }

  lemma {:induction false} BelowIff(x: string, y: string)
    ensures CompareText(x, y) < 0 <==> TextBelow(x, y)
  {
    if x != [] && y != [] && x[0] == y[0] {
      BelowIff(x[1..], y[1..]);
      if i: nat :| LessAt(x[1..], y[1..], i) {
        assert x[..i + 1] == [x[0]] + x[1..][..i] && y[..i + 1] == [y[0]] + y[1..][..i];
        assert LessAt(x, y, i + 1);
      }
      if i: nat :| LessAt(x, y, i) {
        assert x[1..][..i - 1] == x[..i][1..] && y[1..][..i - 1] == y[..i][1..];
        assert LessAt(x[1..], y[1..], i - 1);
      }
    } else {
      assert y != [] ==> (LessAt(x, y, 0) <==> x == [] || x[0] < y[0]);
      if i: nat :| LessAt(x, y, i) {
        FirstPlace(x, y, i);
      }
    }
  }

  lemma FirstPlace(x: string, y: string, i: nat)
    requires LessAt(x, y, i)
    ensures i == 0 || (x != [] && y != [] && x[0] == y[0])
  {
    if i > 0 {
      assert x[..i][0] == y[..i][0];
    }
  }

  /** The comparison of two values is their order as numbers or as texts. */
  lemma CompareMeans(lib: Lib, v: Value, w: Value)
    ensures var c := CompareValues(lib, Some(v), Some(w));
            && (c.Some? && c.value < 0 <==> Below(lib, v, w))
            && (c.Some? && c.value > 0 <==> Above(lib, v, w))
            && (c.Some? && c.value == 0 <==> Level(lib, v, w))
  {
    hide TextBelow, CompareText;
    match v {
      case S(x) =>
        if w.S? {
          TextOrdered(x, w.str);
        }
      case N(_) =>
      case _ => TextOrdered(lib.json(v), lib.json(w));
    }
  }

  ghost predicate Related(lib: Lib, op: CmpOp, v: Option<Value>, w: Option<Value>) {
    match op
    case EqOp => v == w
    case NeqOp => v != w
    case LtOp => v.Some? && w.Some? && Below(lib, v.value, w.value)
    case LteOp => v.Some? && w.Some? && (Below(lib, v.value, w.value) || Level(lib, v.value, w.value))
    case GtOp => v.Some? && w.Some? && Above(lib, v.value, w.value)
    case GteOp => v.Some? && w.Some? && (Above(lib, v.value, w.value) || Level(lib, v.value, w.value))
  }

  // ---- conditions

  ghost predicate Starts(v: Option<Value>, w: Option<Value>) {
    && v.Some? && w.Some? && v.value.S? && w.value.S?
    && exists rest :: v.value.str == w.value.str + rest
  }

  /** t stands in s from the i-th place on. */
  predicate Stands(s: string, i: nat, t: string) {
    i + |t| <= |s| && s[i..i + |t|] == t
  }

  ghost predicate Holding(v: Option<Value>, w: Option<Value>) {
    v.Some? && w.Some? &&
    match v.value
    case S(s) => w.value.S? && exists i: nat :: Stands(s, i, w.value.str)
    case L(list) => exists i :: 0 <= i < |list| && list[i] == w.value
    case _ => false
  }

  ghost predicate Meets(lib: Lib, b: Bindings, item: Item, c: Cond) {
    match c
    case And(l, r) => Meets(lib, b, item, l) && Meets(lib, b, item, r)
    case Or(l, r) => Meets(lib, b, item, l) || Meets(lib, b, item, r)
    case Not(x) => !Meets(lib, b, item, x)
    case Cmp(l, op, r) => Related(lib, op, ValueOf(lib, b, item, l), ValueOf(lib, b, item, r))
    case Exists(p, negate) =>
      var there := DocPath.GetPath(item, PathOf(b, p));
      if negate then there.None? else there.Some?
    case BeginsWith(p, a) => Starts(ValueOf(lib, b, item, p), ValueOf(lib, b, item, a))
    case Contains(p, a) => Holding(ValueOf(lib, b, item, p), ValueOf(lib, b, item, a))
    case Between(x, lo, hi) =>
      && Related(lib, GteOp, ValueOf(lib, b, item, x), ValueOf(lib, b, item, lo))
      && Related(lib, LteOp, ValueOf(lib, b, item, x), ValueOf(lib, b, item, hi))
    case In(x, os) => exists i :: 0 <= i < |os| && ValueOf(lib, b, item, os[i]) == ValueOf(lib, b, item, x)
  }

  /** Reading from the left one comes to a size that is not there before the answer is clear. */
  ghost predicate Fails(lib: Lib, b: Bindings, item: Item, c: Cond) {
    match c
    case And(l, r) => Fails(lib, b, item, l) || (Meets(lib, b, item, l) && Fails(lib, b, item, r))
    case Or(l, r) => Fails(lib, b, item, l) || (!Meets(lib, b, item, l) && Fails(lib, b, item, r))
    case Not(x) => Fails(lib, b, item, x)
    case Cmp(l, _, r) => Unmeasured(lib, b, item, l) || Unmeasured(lib, b, item, r)
    case Exists(_, _) => false
    case BeginsWith(_, a) => Unmeasured(lib, b, item, a)
    case Contains(_, a) => Unmeasured(lib, b, item, a)
    case Between(x, lo, hi) => Unmeasured(lib, b, item, x) || Unmeasured(lib, b, item, lo) || Unmeasured(lib, b, item, hi)
    case In(x, os) => Unmeasured(lib, b, item, x) || exists i :: 0 <= i < |os| && Unmeasured(lib, b, item, os[i])
  }

  // ---- the evaluator answers this

  lemma {:induction false} WalkIsPath(b: Bindings, v: Value, segs: seq<Seg>)
    requires forall s :: s in segs ==> SegBound(s, b)
    ensures Walk(b, v, segs) == Outcome.Ok(DocPath.GetAt(v, RealPath(b, segs)))
    decreases |segs|
  {
    if segs != [] {
      assert SegBound(segs[0], b);
      assert RealPath(b, segs)[1..] == RealPath(b, segs[1..]);
      match segs[0] {
        case Attr(name) =>
          if v.M? && Real(b, name) in v.fields {
            WalkIsPath(b, v.fields[Real(b, name)], segs[1..]);
          }
        case Index(i) =>
          if v.L? && i < |v.list| {
            WalkIsPath(b, v.list[i], segs[1..]);
          }
      }
    }
  }

  lemma NamedPath(item: Item, name: string)
    ensures DocPath.GetPath(item, [Attr(name)]) == Lookup(item, name)
  {
    var p := [Attr(name)];
    assert p[1..] == [];
    assert DocPath.GetAt(M(item), p) == if name in item then DocPath.GetAt(item[name], p[1..]) else None;
  }

  lemma PathResolves(lib: Lib, b: Bindings, item: Item, o: Operand)
    requires PathOk(o) && OperandBound(o, b)
    ensures Resolve(lib, b, item, o) == Outcome.Ok(DocPath.GetPath(item, PathOf(b, o)))
  {
    match o {
      case NameOp(ref) =>
        assert ref[..1] == "#";
        NamedPath(item, Real(b, ref));
      case PlainOp(name) => NamedPath(item, name);
      case PathOp(segs) =>
        assert SegBound(segs[0], b);
        assert RealPath(b, segs)[1..] == RealPath(b, segs[1..]);
        if Real(b, segs[0].name) in item {
          WalkIsPath(b, item[Real(b, segs[0].name)], segs[1..]);
        }
    }
  }

  lemma OperandResolves(lib: Lib, b: Bindings, item: Item, o: Operand)
    requires (OperandOk(o) || LeftOk(o)) && OperandBound(o, b)
    ensures Resolve(lib, b, item, o)
            == if Unmeasured(lib, b, item, o) then Outcome.Error else Outcome.Ok(ValueOf(lib, b, item, o))
  {
    hide Upper, PathToks, DocPath.GetPath;
    match o {
      case ValOp(_) =>
      case SizeOp(path) => PathResolves(lib, b, item, path);
      case _ => PathResolves(lib, b, item, o);
    }
  }

  lemma {:induction false} ChoicesResolve(lib: Lib, b: Bindings, item: Item, os: seq<Operand>)
    requires forall o :: o in os ==> OperandOk(o) && OperandBound(o, b)
    ensures ResolveAll(lib, b, item, os).Error? <==> exists i :: 0 <= i < |os| && Unmeasured(lib, b, item, os[i])
    ensures var r := ResolveAll(lib, b, item, os);
            r.Ok? ==> |r.value| == |os| && forall i :: 0 <= i < |os| ==> r.value[i] == ValueOf(lib, b, item, os[i])
  {
    hide OperandOk, OperandBound, Resolve, Unmeasured, ValueOf;
    if os != [] {
      OperandResolves(lib, b, item, os[0]);
      ChoicesResolve(lib, b, item, os[1..]);
      var rest := os[1..];
      if i :| 0 <= i < |os| && Unmeasured(lib, b, item, os[i]) && i > 0 {
        assert rest[i - 1] == os[i];
      }
      if i :| 0 <= i < |rest| && Unmeasured(lib, b, item, rest[i]) {
        assert os[i + 1] == rest[i];
      }
    }
  }

  lemma ComparesMeans(lib: Lib, op: CmpOp, v: Option<Value>, w: Option<Value>)
    ensures Compares(lib, op, v, w) <==> Related(lib, op, v, w)
  {
    hide CompareValues, Below, Above, Level;
    if v.Some? && w.Some? {
      CompareMeans(lib, v.value, w.value);
    } else {
      NoneCompares(lib, v, w);
    }
  }

  lemma NoneCompares(lib: Lib, v: Option<Value>, w: Option<Value>)
    requires v.None? || w.None?
    ensures CompareValues(lib, v, w).None?
  {
  }

  lemma WithinMeans(lib: Lib, v: Option<Value>, lo: Option<Value>, hi: Option<Value>)
    ensures Within(lib, v, lo, hi) <==> Related(lib, GteOp, v, lo) && Related(lib, LteOp, v, hi)
  {
    hide CompareValues, Below, Above, Level;
    ComparesMeans(lib, GteOp, v, lo);
    ComparesMeans(lib, LteOp, v, hi);
  }

  lemma PrefixMeans(v: Option<Value>, w: Option<Value>)
    ensures HasPrefix(v, w) <==> Starts(v, w)
  {
    if HasPrefix(v, w) {
      assert v.value.str == w.value.str + v.value.str[|w.value.str|..];
    }
  }

  lemma {:induction false} SubstringMeans(s: string, t: string)
    ensures HasSubstring(s, t) <==> exists i: nat :: Stands(s, i, t)
  {
    if t <= s {
      assert Stands(s, 0, t);
    } else if s != [] {
      SubstringMeans(s[1..], t);
      if i: nat :| Stands(s, i, t) {
        assert s[1..][i - 1..i - 1 + |t|] == s[i..i + |t|];
        assert Stands(s[1..], i - 1, t);
      }
      if i: nat :| Stands(s[1..], i, t) {
        assert s[1..][i..i + |t|] == s[i + 1..i + 1 + |t|];
        assert Stands(s, i + 1, t);
      }
    }
  }

  lemma ContainsMeans(v: Option<Value>, w: Option<Value>)
    ensures ContainsValue(v, w) <==> Holding(v, w)
  {
    hide HasSubstring;
    if v.Some? && w.Some? && v.value.S? && w.value.S? {
      SubstringMeans(v.value.str, w.value.str);
    }
  }

  /** A tree whose placeholders are bound is answered by what it means. */
  lemma {:induction false} TreeMeans(lib: Lib, b: Bindings, item: Item, c: Cond)
    requires CondFits(c) && CondBound(c, b)
    ensures Eval(lib, b, item, c) == if Fails(lib, b, item, c) then Outcome.Error else Outcome.Ok(Meets(lib, b, item, c))
  {
    hide OperandOk, LeftOk, PathOk, OperandBound, Opens, Resolve, Unmeasured, ValueOf, Compares, Related, Within, HasPrefix, Starts, ContainsValue, Holding;
    match c {
      case And(l, r) => TreeMeans(lib, b, item, l); TreeMeans(lib, b, item, r);
      case Or(l, r) => TreeMeans(lib, b, item, l); TreeMeans(lib, b, item, r);
      case Not(x) => TreeMeans(lib, b, item, x);
      case Cmp(l, op, r) =>
        OperandResolves(lib, b, item, l);
        OperandResolves(lib, b, item, r);
        ComparesMeans(lib, op, ValueOf(lib, b, item, l), ValueOf(lib, b, item, r));
      case Exists(p, _) => PathResolves(lib, b, item, p);
      case BeginsWith(p, a) =>
        PathArgument(lib, b, item, p, a);
        PrefixMeans(ValueOf(lib, b, item, p), ValueOf(lib, b, item, a));
      case Contains(p, a) =>
        PathArgument(lib, b, item, p, a);
        ContainsMeans(ValueOf(lib, b, item, p), ValueOf(lib, b, item, a));
      case Between(x, lo, hi) =>
        OperandResolves(lib, b, item, x);
        OperandResolves(lib, b, item, lo);
        OperandResolves(lib, b, item, hi);
        WithinMeans(lib, ValueOf(lib, b, item, x), ValueOf(lib, b, item, lo), ValueOf(lib, b, item, hi));
      case In(x, os) =>
        OperandResolves(lib, b, item, x);
        ChoicesResolve(lib, b, item, os);
    }
  }

  lemma PathArgument(lib: Lib, b: Bindings, item: Item, p: Operand, a: Operand)
    requires PathOk(p) && OperandOk(a) && OperandBound(p, b) && OperandBound(a, b)
    ensures Resolve(lib, b, item, p) == Outcome.Ok(ValueOf(lib, b, item, p))
    ensures Resolve(lib, b, item, a)
            == if Unmeasured(lib, b, item, a) then Outcome.Error else Outcome.Ok(ValueOf(lib, b, item, a))
  {
    hide OperandOk, OperandBound, Resolve, DocPath.GetPath;
    PathResolves(lib, b, item, p);
    OperandResolves(lib, b, item, a);
  }

  /** A text is answered, on every item, by what the tree it parses to means. */
  lemma TextMeans(lib: Lib, expr: string, b: Bindings, item: Item)
    ensures EvalFilter(lib, expr, b, item)
            == var tree := ParseFilter(expr);
               if tree.None? || !RefsBound(Lex(expr).value, b) || Fails(lib, b, item, tree.value) then Outcome.Error
               else Outcome.Ok(Meets(lib, b, item, tree.value))
  {
    hide Eval, Fails, Meets, CondFits, Opens, ParseOr;
    var tree := ParseFilter(expr);
    if tree.Some? && RefsBound(Lex(expr).value, b) {
      LexOk(expr);
      IdentsPlain(expr);
      OrBound(Lex(expr).value, 0, b);
      ParseThenPrint(expr);
      TreeMeans(lib, b, item, tree.value);
    }
  }

  // ---- printed conditions

  predicate ToksBound(toks: seq<Token>, b: Bindings) {
    forall t :: t in toks ==> TokenBound(t, b)
  }

  lemma {:induction false} TailBinds(segs: seq<Seg>, b: Bindings)
    ensures ToksBound(TailToks(segs), b) <==> forall s :: s in segs ==> SegBound(s, b)
  {
    if segs != [] {
      TailBinds(segs[1..], b);
      SegBinds(segs[0], b);
      assert segs == [segs[0]] + segs[1..];
      assert forall t :: t in TailToks(segs) <==> t in SegToks(segs[0]) || t in TailToks(segs[1..]);
      assert forall s :: s in segs <==> s == segs[0] || s in segs[1..];
    }
  }

  lemma SegBinds(seg: Seg, b: Bindings)
    ensures ToksBound(SegToks(seg), b) <==> SegBound(seg, b)
  {
    match seg {
      case Attr(name) => assert NameTok(name) in SegToks(seg);
      case Index(i) =>
    }
  }

  lemma PathBinds(o: Operand, b: Bindings)
    requires PathOk(o)
    ensures ToksBound(PathToks(o), b) <==> OperandBound(o, b)
  {
    match o {
      case NameOp(ref) => assert NameRef(ref) in PathToks(o);
      case PlainOp(_) =>
      case PathOp(segs) =>
        var first := NameTok(segs[0].name);
        assert SegBound(segs[0], b) <==> TokenBound(first, b);
        TailBinds(segs[1..], b);
        assert segs == [segs[0]] + segs[1..];
        assert forall t :: t in PathToks(o) <==> t == first || t in TailToks(segs[1..]);
        assert forall s :: s in segs <==> s == segs[0] || s in segs[1..];
    }
  }

  lemma OperandBinds(o: Operand, b: Bindings)
    requires OperandOk(o) || LeftOk(o)
    ensures ToksBound(OperandToks(o), b) <==> OperandBound(o, b)
  {
    hide PathToks, Upper;
    match o {
      case ValOp(ref) => assert ValRef(ref) in OperandToks(o);
      case SizeOp(path) =>
        PathBinds(path, b);
        assert forall t :: t in OperandToks(o) <==> t == SizeTok || t == LParen || t in PathToks(path) || t == RParen;
      case _ => PathBinds(o, b);
    }
  }

  lemma {:induction false} ListBinds(os: seq<Operand>, b: Bindings)
    requires forall o :: o in os ==> OperandOk(o)
    ensures ToksBound(ListToks(os), b) <==> forall o :: o in os ==> OperandBound(o, b)
  {
    hide OperandOk, OperandToks, OperandBound;
    if os != [] {
      OperandBinds(os[0], b);
      ListBinds(os[1..], b);
      assert forall t :: t in ListToks(os) <==> t == Comma || t in OperandToks(os[0]) || t in ListToks(os[1..]);
      assert os == [os[0]] + os[1..];
      assert forall o :: o in os <==> o == os[0] || o in os[1..];
    }
  }

  lemma JoinBinds(x: seq<Token>, y: seq<Token>, b: Bindings)
    ensures ToksBound(x + y, b) <==> ToksBound(x, b) && ToksBound(y, b)
  {
    assert forall t :: t in x ==> t in x + y;
    assert forall t :: t in y ==> t in x + y;
  }

  predicate Wordless(t: Token) { !t.NameRef? && !t.ValRef? }

  lemma WordlessBinds(toks: seq<Token>, b: Bindings)
    requires forall t :: t in toks ==> Wordless(t)
    ensures ToksBound(toks, b)
  {
  }

  lemma {:induction false} CondBinds(c: Cond, b: Bindings)
    requires CondFits(c)
    ensures ToksBound(CondToks(c), b) <==> CondBound(c, b)
  {
    hide OperandOk, LeftOk, PathOk, OperandToks, PathToks, OperandBound, TokenBound, Opens, ToksBound, KeywordText, Upper, ListToks;
    match c {
      case And(l, r) => CondBinds(l, b); CondBinds(r, b); PairBinds(CondToks(l), KeyTok(AND), CondToks(r), b);
      case Or(l, r) => CondBinds(l, b); CondBinds(r, b); PairBinds(CondToks(l), KeyTok(OR), CondToks(r), b);
      case Not(x) => CondBinds(x, b); WrapBinds([LParen, KeyTok(NOT)], CondToks(x), b);
      case Cmp(l, op, r) => OperandBinds(l, b); OperandBinds(r, b); MidBinds(OperandToks(l), OpTok(op), OperandToks(r), b);
      case Exists(p, negate) =>
        PathBinds(p, b);
        WrapBinds([FuncTok(if negate then AttributeNotExists else AttributeExists), LParen], PathToks(p), b);
      case BeginsWith(p, a) => ArgsBind(FuncTok(BeginsWithFn), p, a, b);
      case Contains(p, a) => ArgsBind(FuncTok(ContainsFn), p, a, b);
      case Between(x, lo, hi) =>
        OperandBinds(x, b); OperandBinds(lo, b); OperandBinds(hi, b);
        MidBinds(OperandToks(lo), KeyTok(AND), OperandToks(hi), b);
        MidBinds(OperandToks(x), KeyTok(BETWEEN), BoundToks(lo, hi), b);
      case In(x, os) =>
        OperandBinds(x, b);
        ChoicesBind(os, b);
        MidBinds(OperandToks(x), KeyTok(IN), ChoiceToks(os), b);
    }
  }

  lemma MidBinds(x: seq<Token>, t: Token, y: seq<Token>, b: Bindings)
    requires Wordless(t)
    ensures ToksBound(x + ([t] + y), b) <==> ToksBound(x, b) && ToksBound(y, b)
  {
    hide ToksBound;
    JoinBinds(x, [t] + y, b);
    JoinBinds([t], y, b);
    WordlessBinds([t], b);
  }

  lemma WrapBinds(front: seq<Token>, x: seq<Token>, b: Bindings)
    requires forall t :: t in front ==> Wordless(t)
    ensures ToksBound(front + (x + [RParen]), b) <==> ToksBound(x, b)
  {
    hide ToksBound;
    JoinBinds(front, x + [RParen], b);
    JoinBinds(x, [RParen], b);
    WordlessBinds(front, b);
    WordlessBinds([RParen], b);
  }

  lemma PairBinds(x: seq<Token>, t: Token, y: seq<Token>, b: Bindings)
    requires Wordless(t)
    ensures ToksBound([LParen] + (x + ([t] + (y + [RParen]))), b) <==> ToksBound(x, b) && ToksBound(y, b)
  {
    hide ToksBound;
    JoinBinds([LParen], x + ([t] + (y + [RParen])), b);
    WordlessBinds([LParen], b);
    MidBinds(x, t, y + [RParen], b);
    JoinBinds(y, [RParen], b);
    WordlessBinds([RParen], b);
  }

  lemma ArgsBind(f: Token, p: Operand, a: Operand, b: Bindings)
    requires Wordless(f) && PathOk(p) && OperandOk(a)
    ensures ToksBound([f] + ArgToks(p, a), b) <==> OperandBound(p, b) && OperandBound(a, b)
  {
    hide ToksBound, OperandOk, PathOk, OperandToks, PathToks, OperandBound;
    JoinBinds([f], ArgToks(p, a), b);
    WordlessBinds([f], b);
    PairBinds(PathToks(p), Comma, OperandToks(a), b);
    PathBinds(p, b);
    OperandBinds(a, b);
  }

  lemma ChoicesBind(os: seq<Operand>, b: Bindings)
    requires |os| > 0 && forall o :: o in os ==> OperandOk(o)
    ensures ToksBound(ChoiceToks(os), b) <==> forall o :: o in os ==> OperandBound(o, b)
  {
    hide ToksBound, OperandOk, OperandToks, OperandBound, ListToks;
    OperandBinds(os[0], b);
    ListBinds(os[1..], b);
    JoinBinds([LParen], OperandToks(os[0]) + (ListToks(os[1..]) + [RParen]), b);
    WordlessBinds([LParen], b);
    JoinBinds(OperandToks(os[0]), ListToks(os[1..]) + [RParen], b);
    JoinBinds(ListToks(os[1..]), [RParen], b);
    WordlessBinds([RParen], b);
    assert os == [os[0]] + os[1..];
    assert forall o :: o in os <==> o == os[0] || o in os[1..];
  }

  /** The text of a condition is answered iff its placeholders are bound and no size is
      missing, and then by what the condition means. */
  lemma PrintedMeans(lib: Lib, c: Cond, b: Bindings, item: Item)
    requires CondOk(c)
    ensures EvalFilter(lib, Print(c), b, item)
            == if !CondBound(c, b) || Fails(lib, b, item, c) then Outcome.Error else Outcome.Ok(Meets(lib, b, item, c))
  {
    hide Fails, Meets, CondFits, Opens, Lex, ParseFilter, CondToks, Spell, EvalFilter;
    PrintThenParse(c);
    TextMeans(lib, Print(c), b, item);
    PrintedToks(c);
    CondBinds(c, b);
    var toks := CondToks(c) + [EOF];
    assert RefsBound(toks, b) <==> ToksBound(CondToks(c), b) by {
      hide TokenBound;
      JoinBinds(CondToks(c), [EOF], b);
      WordlessBinds([EOF], b);
      assert forall i :: 0 <= i < |toks| ==> toks[i] in toks;
    }
  }

  lemma PrintedToks(c: Cond)
    requires CondOk(c)
    ensures Lex(Print(c)) == Some(CondToks(c) + [EOF])
  {
    hide CondToks, CondFits, Opens, Spell, Lex;
    CondSpellable(c);
    LexSpell(Spaced(CondToks(c)));
    assert Tokens(Spaced(CondToks(c))) == CondToks(c);
  }

  // ---- what each form says

  /** When both sides are answered, the connectives are the logical ones. */
  lemma Connectives(lib: Lib, x: Cond, y: Cond, b: Bindings, item: Item, p: bool, q: bool)
    requires CondOk(x) && CondOk(y)
    requires EvalFilter(lib, Print(x), b, item) == Outcome.Ok(p) && EvalFilter(lib, Print(y), b, item) == Outcome.Ok(q)
    ensures CondOk(Not(x)) && CondOk(And(x, y)) && CondOk(Or(x, y))
    ensures EvalFilter(lib, Print(Not(x)), b, item) == Outcome.Ok(!p)
    ensures EvalFilter(lib, Print(And(x, y)), b, item) == Outcome.Ok(p && q)
    ensures EvalFilter(lib, Print(Or(x, y)), b, item) == Outcome.Ok(p || q)
  {
    hide EvalFilter, Print;
    PrintedMeans(lib, x, b, item);
    PrintedMeans(lib, y, b, item);
    PrintedMeans(lib, Not(x), b, item);
    PrintedMeans(lib, And(x, y), b, item);
    PrintedMeans(lib, Or(x, y), b, item);
  }

  /** attribute_exists and attribute_not_exists say whether the document path leads to a value. */
  lemma ExistenceIs(lib: Lib, path: Operand, b: Bindings, item: Item)
    requires PathOk(path) && OperandBound(path, b)
    ensures EvalFilter(lib, Print(Exists(path, false)), b, item) == Outcome.Ok(DocPath.GetPath(item, PathOf(b, path)).Some?)
    ensures EvalFilter(lib, Print(Exists(path, true)), b, item) == Outcome.Ok(DocPath.GetPath(item, PathOf(b, path)).None?)
  {
    hide EvalFilter, Print, DocPath.GetPath;
    PrintedMeans(lib, Exists(path, false), b, item);
    PrintedMeans(lib, Exists(path, true), b, item);
  }

  /** begins_with with a bound value: the text at the path goes on from the given one. */
  lemma BeginningIs(lib: Lib, path: Operand, ref: string, b: Bindings, item: Item)
    requires PathOk(path) && OperandBound(path, b) && Spellable(ValRef(ref)) && ref in b.values
    ensures var v := DocPath.GetPath(item, PathOf(b, path));
            EvalFilter(lib, Print(BeginsWith(path, ValOp(ref))), b, item)
            == Outcome.Ok(v.Some? && v.value.S? && b.values[ref].S? && exists rest :: v.value.str == b.values[ref].str + rest)
  {
    hide EvalFilter, Print, DocPath.GetPath;
    PrintedMeans(lib, BeginsWith(path, ValOp(ref)), b, item);
    PathValue(lib, path, b, item);
  }

  /** contains with a bound value: it stands somewhere in the text, or is an element of the list. */
  lemma ContentIs(lib: Lib, path: Operand, ref: string, b: Bindings, item: Item)
    requires PathOk(path) && OperandBound(path, b) && Spellable(ValRef(ref)) && ref in b.values
    ensures var v, x := DocPath.GetPath(item, PathOf(b, path)), b.values[ref];
            EvalFilter(lib, Print(Contains(path, ValOp(ref))), b, item)
            == Outcome.Ok(v.Some? && ((v.value.S? && x.S? && exists i: nat :: Stands(v.value.str, i, x.str))
                                      || (v.value.L? && exists i :: 0 <= i < |v.value.list| && v.value.list[i] == x)))
  {
    hide EvalFilter, Print, DocPath.GetPath, Stands;
    PrintedMeans(lib, Contains(path, ValOp(ref)), b, item);
    PathValue(lib, path, b, item);
  }

  /** size is the length of what is at the path, and an error for a BOOL or a NULL. */
  lemma SizeIs(lib: Lib, path: Operand, ref: string, b: Bindings, item: Item)
    requires PathOk(path) && OperandBound(path, b) && Spellable(ValRef(ref)) && ref in b.values
    ensures var v := DocPath.GetPath(item, PathOf(b, path));
            EvalFilter(lib, Print(Cmp(SizeOp(path), EqOp, ValOp(ref))), b, item)
            == if v.Some? && !Sizable(v.value) then Outcome.Error
               else Outcome.Ok(v.Some? && b.values[ref] == N(Decimal(Length(lib, v.value))))
  {
    hide EvalFilter, Print, DocPath.GetPath;
    PrintedMeans(lib, Cmp(SizeOp(path), EqOp, ValOp(ref)), b, item);
    PathValue(lib, path, b, item);
  }

  lemma PathValue(lib: Lib, path: Operand, b: Bindings, item: Item)
    requires PathOk(path)
    ensures ValueOf(lib, b, item, path) == DocPath.GetPath(item, PathOf(b, path)) && !Unmeasured(lib, b, item, path)
  {
  }
}
