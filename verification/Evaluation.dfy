/** Evaluation of condition trees against an item, and the check that every
    placeholder an expression mentions is bound. */
module Evaluation {
  import opened Values
  import opened Lexer
  import opened Parser

  datatype Outcome<+T> = Ok(value: T) | Error

  /** The attribute maps that come with an expression. */
  datatype Bindings = Bindings(names: map<string, string>, values: map<string, Value>)

  function AttrSize(lib: Lib, v: Value): Option<nat> {
    match v
    case S(s) => Some(|s|)
    case N(n) => Some(|n|)
    case B(b) => Some(lib.decodedLength(b))
    case SS(e) => Some(|e|)
    case NS(e) => Some(|e|)
    case BS(e) => Some(|e|)
    case L(l) => Some(|l|)
    case M(m) => Some(|m|)
    case Bool(_) => None
    case Null => None
  }

  function NameOf(b: Bindings, name: string): Option<string> {
    if !("#" <= name) then Some(name)
    else if name in b.names then Some(b.names[name])
    else None
  }

  /** Follows the remaining steps of a document path; an absent step gives no value. */
  function Walk(b: Bindings, v: Value, segs: seq<Seg>): Outcome<Option<Value>>
    decreases |segs|
  {
    if segs == [] then Ok(Some(v))
    else
      match segs[0]
      case Attr(name) =>
        if !v.M? then Ok(None)
        else
          var n := NameOf(b, name);
          if n.None? then Error
          else if n.value !in v.fields then Ok(None)
          else Walk(b, v.fields[n.value], segs[1..])
      case Index(i) =>
        if !v.L? || i >= |v.list| then Ok(None) else Walk(b, v.list[i], segs[1..])
  }

  function Resolve(lib: Lib, b: Bindings, item: Item, o: Operand): Outcome<Option<Value>> {
    match o
    case NameOp(ref) => if ref in b.names then Ok(Lookup(item, b.names[ref])) else Error
    case ValOp(ref) => Ok(Lookup(b.values, ref))
    case PlainOp(name) => Ok(Lookup(item, name))
    case SizeOp(path) =>
      (match Resolve(lib, b, item, path)
       case Error => Error
       case Ok(None) => Ok(None)
       case Ok(Some(v)) =>
         var n := AttrSize(lib, v);
         if n.None? then Error else Ok(Some(N(Decimal(n.value)))))
    case PathOp(segs) =>
      if segs == [] || !segs[0].Attr? then Ok(None)
      else
        var n := NameOf(b, segs[0].name);
        if n.None? then Error
        else if n.value !in item then Ok(None)
        else Walk(b, item[n.value], segs[1..])
  }

  /** Values are compared for equality by their JSON text; absence prints as null,
      which no typed value does. */
  function Compares(lib: Lib, op: CmpOp, l: Option<Value>, r: Option<Value>): bool {
    var c := CompareValues(lib, l, r);
    match op
    case EqOp => l == r
    case NeqOp => l != r
    case LtOp => c.Some? && c.value < 0
    case LteOp => c.Some? && c.value <= 0
    case GtOp => c.Some? && c.value > 0
    case GteOp => c.Some? && c.value >= 0
  }

  predicate Within(lib: Lib, v: Option<Value>, lo: Option<Value>, hi: Option<Value>) {
    var c1, c2 := CompareValues(lib, v, lo), CompareValues(lib, v, hi);
    c1.Some? && c2.Some? && c1.value >= 0 && c2.value <= 0
  }

  predicate HasPrefix(v: Option<Value>, prefix: Option<Value>) {
    v.Some? && prefix.Some? && v.value.S? && prefix.value.S? && prefix.value.str <= v.value.str
  }

  predicate HasSubstring(s: string, t: string) {
    t <= s || (s != [] && HasSubstring(s[1..], t))
  }

  predicate ContainsValue(v: Option<Value>, x: Option<Value>) {
    v.Some? && x.Some? &&
    match v.value
    case S(s) => x.value.S? && HasSubstring(s, x.value.str)
    case L(l) => x.value in l
    case _ => false
  }

  function ResolveAll(lib: Lib, b: Bindings, item: Item, os: seq<Operand>): Outcome<seq<Option<Value>>> {
    if os == [] then Ok([])
    else
      match Resolve(lib, b, item, os[0])
      case Error => Error
      case Ok(v) =>
        match ResolveAll(lib, b, item, os[1..])
        case Error => Error
        case Ok(vs) => Ok([v] + vs)
  }

  function Eval(lib: Lib, b: Bindings, item: Item, c: Cond): Outcome<bool> {
    match c
    case And(l, r) =>
      var x := Eval(lib, b, item, l);
      if x != Ok(true) then x else Eval(lib, b, item, r)
    case Or(l, r) =>
      var x := Eval(lib, b, item, l);
      if x != Ok(false) then x else Eval(lib, b, item, r)
    case Not(x) =>
      (match Eval(lib, b, item, x)
       case Error => Error
       case Ok(v) => Ok(!v))
    case Cmp(l, op, r) =>
      (match (Resolve(lib, b, item, l), Resolve(lib, b, item, r))
       case (Ok(x), Ok(y)) => Ok(Compares(lib, op, x, y))
       case _ => Error)
    case Exists(p, negate) =>
      (match Resolve(lib, b, item, p)
       case Error => Error
       case Ok(v) => Ok(v.Some? != negate))
    case BeginsWith(p, a) =>
      (match (Resolve(lib, b, item, p), Resolve(lib, b, item, a))
       case (Ok(x), Ok(y)) => Ok(HasPrefix(x, y))
       case _ => Error)
    case Contains(p, a) =>
      (match (Resolve(lib, b, item, p), Resolve(lib, b, item, a))
       case (Ok(x), Ok(y)) => Ok(ContainsValue(x, y))
       case _ => Error)
    case Between(x, lo, hi) =>
      (match (Resolve(lib, b, item, x), Resolve(lib, b, item, lo), Resolve(lib, b, item, hi))
       case (Ok(v), Ok(l), Ok(h)) => Ok(Within(lib, v, l, h))
       case _ => Error)
    case In(x, os) =>
      (match (Resolve(lib, b, item, x), ResolveAll(lib, b, item, os))
       case (Ok(v), Ok(vs)) => Ok(v in vs)
       case _ => Error)
  }

  /** `validateExprRefs`: every placeholder among the tokens is bound. */
  predicate RefsBound(toks: seq<Token>, b: Bindings) {
    forall i :: 0 <= i < |toks| ==> TokenBound(toks[i], b)
  }

  predicate TokenBound(t: Token, b: Bindings) {
    && (t.ValRef? ==> t.text in b.values)
    && (t.NameRef? ==> t.text in b.names)
  }

  /** `evalFilterExpr`. */
  function EvalFilter(lib: Lib, expr: string, b: Bindings, item: Item): Outcome<bool> {
    var node := ParseFilter(expr);
    if node.None? || !RefsBound(Lex(expr).value, b) then Error
    else Eval(lib, b, item, node.value)
  }

  // ---- a validated expression finds all its placeholders

  predicate SegBound(seg: Seg, b: Bindings) {
    seg.Attr? ==> NameOf(b, seg.name).Some?
  }

  predicate OperandBound(o: Operand, b: Bindings) {
    match o
    case NameOp(ref) => ref in b.names
    case ValOp(ref) => ref in b.values
    case PlainOp(_) => true
    case SizeOp(path) => OperandBound(path, b)
    case PathOp(segs) => forall s :: s in segs ==> SegBound(s, b)
  }

  predicate CondBound(c: Cond, b: Bindings) {
    match c
    case And(l, r) => CondBound(l, b) && CondBound(r, b)
    case Or(l, r) => CondBound(l, b) && CondBound(r, b)
    case Not(x) => CondBound(x, b)
    case Cmp(l, _, r) => OperandBound(l, b) && OperandBound(r, b)
    case Exists(p, _) => OperandBound(p, b)
    case BeginsWith(p, a) => OperandBound(p, b) && OperandBound(a, b)
    case Contains(p, a) => OperandBound(p, b) && OperandBound(a, b)
    case Between(x, lo, hi) => OperandBound(x, b) && OperandBound(lo, b) && OperandBound(hi, b)
    case In(x, os) => OperandBound(x, b) && forall o :: o in os ==> OperandBound(o, b)
  }

  predicate Sizeless(o: Operand) { !o.SizeOp? }

  /** No size() in the tree; size() of a BOOL or NULL is the one failure left. */
  predicate NoSize(c: Cond) {
    match c
    case And(l, r) => NoSize(l) && NoSize(r)
    case Or(l, r) => NoSize(l) && NoSize(r)
    case Not(x) => NoSize(x)
    case Cmp(l, _, r) => Sizeless(l) && Sizeless(r)
    case Exists(p, _) => Sizeless(p)
    case BeginsWith(p, a) => Sizeless(p) && Sizeless(a)
    case Contains(p, a) => Sizeless(p) && Sizeless(a)
    case Between(x, lo, hi) => Sizeless(x) && Sizeless(lo) && Sizeless(hi)
    case In(x, os) => Sizeless(x) && forall o :: o in os ==> Sizeless(o)
  }

  /** The token list of an expression whose placeholders are all bound. */
  predicate Checked(toks: seq<Token>, b: Bindings) {
    && TokensOk(toks)
    && RefsBound(toks, b)
    && forall i :: 0 <= i < |toks| && toks[i].Ident? ==> !("#" <= toks[i].text)
  }

  lemma {:induction false} IdentsPlain(s: string)
    ensures Lex(s).Some? ==>
              forall i :: 0 <= i < |Lex(s).value| && Lex(s).value[i].Ident? ==> !("#" <= Lex(s).value[i].text)
    decreases |s|
  {
    if s != [] {
      match LexHead(s) {
        case Space => IdentsPlain(s[1..]);
        case Bad =>
        case Tok(_, n) => IdentsPlain(s[n..]);
      }
    }
  }

  lemma {:induction false} PathTailBound(toks: seq<Token>, pos: nat, segs: seq<Seg>, b: Bindings)
    requires Checked(toks, b) && pos < |toks| && (forall s :: s in segs ==> SegBound(s, b))
    ensures var r := PathTail(toks, pos, segs);
            r.Parsed? ==> forall s :: s in r.node ==> SegBound(s, b)
    decreases |toks| - pos
  {
    if toks[pos].Dot? && IsName(toks[pos + 1]) {
      assert TokenBound(toks[pos + 1], b);
      PathTailBound(toks, pos + 2, segs + [Attr(toks[pos + 1].text)], b);
    } else if toks[pos].ListIdx? {
      PathTailBound(toks, pos + 1, segs + [Index(Atoi(toks[pos].text))], b);
    }
  }

  lemma PathBound(toks: seq<Token>, pos: nat, b: Bindings)
    requires Checked(toks, b) && pos < |toks|
    ensures var r := ParseAttrPath(toks, pos); r.Parsed? ==> OperandBound(r.node, b)
  {
    if IsName(toks[pos]) {
      assert TokenBound(toks[pos], b);
      PathTailBound(toks, pos + 1, [Attr(toks[pos].text)], b);
    }
  }

  lemma OperandParseBound(toks: seq<Token>, pos: nat, b: Bindings)
    requires Checked(toks, b) && pos < |toks|
    ensures var r := ParseOperand(toks, pos); r.Parsed? ==> OperandBound(r.node, b)
  {
    hide ParseAttrPath;
    assert TokenBound(toks[pos], b);
    PathBound(toks, pos, b);
    if pos + 2 < |toks| {
      PathBound(toks, pos + 2, b);
    }
  }

  lemma {:induction false} InTailBound(toks: seq<Token>, pos: nat, os: seq<Operand>, b: Bindings)
    requires Checked(toks, b) && pos < |toks| && (forall o :: o in os ==> OperandBound(o, b))
    ensures var r := InTail(toks, pos, os);
            r.Parsed? ==> forall o :: o in r.node ==> OperandBound(o, b)
    decreases |toks| - pos
  {
    hide ParseOperand, OperandBound;
    if toks[pos].Comma? {
      var v := ParseOperand(toks, pos + 1);
      OperandParseBound(toks, pos + 1, b);
      if v.Parsed? && |os| + 1 <= MAX_IN {
        InTailBound(toks, v.next, os + [v.node], b);
      }
    }
  }

  lemma RelationBound(toks: seq<Token>, pos: nat, left: Operand, b: Bindings)
    requires Checked(toks, b) && pos < |toks| && OperandBound(left, b)
    ensures var r := ParseRelation(toks, pos, left); r.Parsed? ==> CondBound(r.node, b)
  {
    hide ParseOperand, OperandBound, Upper;
    if pos + 1 < |toks| {
      OperandParseBound(toks, pos + 1, b);
      var lo := ParseOperand(toks, pos + 1);
      if lo.Parsed? && lo.next + 1 < |toks| {
        OperandParseBound(toks, lo.next + 1, b);
      }
      if pos + 2 < |toks| {
        OperandParseBound(toks, pos + 2, b);
        var first := ParseOperand(toks, pos + 2);
        if first.Parsed? {
          InTailBound(toks, first.next, [first.node], b);
        }
      }
    }
  }

  lemma ComparisonBound(toks: seq<Token>, pos: nat, b: Bindings)
    requires Checked(toks, b) && pos < |toks|
    ensures var r := ParseComparison(toks, pos); r.Parsed? ==> CondBound(r.node, b)
  {
    hide ParseAttrPath, ParseRelation, Upper, CondBound;
    PathBound(toks, pos, b);
    if pos + 2 < |toks| {
      PathBound(toks, pos + 2, b);
    }
    var left := if IsKeyword(toks[pos], SIZE) then ParseSize(toks, pos) else ParseAttrPath(toks, pos);
    if left.Parsed? {
      RelationBound(toks, left.next, left.node, b);
    }
  }

  lemma FunctionBound(toks: seq<Token>, pos: nat, b: Bindings)
    requires Checked(toks, b) && pos < |toks| && !toks[pos].EOF?
    ensures forall n: bool :: ParseExists(toks, pos, n).Parsed? ==> CondBound(ParseExists(toks, pos, n).node, b)
    ensures forall f: Func :: ParseTwoArgs(toks, pos, f).Parsed? ==> CondBound(ParseTwoArgs(toks, pos, f).node, b)
  {
    hide ParseAttrPath, ParseOperand, OperandBound;
    if pos + 2 < |toks| {
      PathBound(toks, pos + 2, b);
      var path := ParseAttrPath(toks, pos + 2);
      if path.Parsed? && path.next + 1 < |toks| {
        OperandParseBound(toks, path.next + 1, b);
      }
    }
  }

  lemma {:induction false} PrimaryBound(toks: seq<Token>, pos: nat, b: Bindings)
    requires Checked(toks, b) && pos < |toks|
    ensures var r := ParsePrimary(toks, pos); r.Parsed? ==> CondBound(r.node, b)
    decreases |toks| - pos, 0
  {
    hide ParseExists, ParseTwoArgs, ParseComparison, ParseOr, CondBound;
    if toks[pos].LParen? {
      OrBound(toks, pos + 1, b);
    } else {
      ComparisonBound(toks, pos, b);
      if !toks[pos].EOF? {
        FunctionBound(toks, pos, b);
      }
    }
  }

  lemma {:induction false} NotBound(toks: seq<Token>, pos: nat, b: Bindings)
    requires Checked(toks, b) && pos < |toks|
    ensures var r := ParseNot(toks, pos); r.Parsed? ==> CondBound(r.node, b)
    decreases |toks| - pos, 1
  {
    hide ParsePrimary;
    if IsKeyword(toks[pos], NOT) {
      PrimaryBound(toks, pos + 1, b);
    } else {
      PrimaryBound(toks, pos, b);
    }
  }

  lemma {:induction false} AndTailBound(toks: seq<Token>, pos: nat, left: Cond, b: Bindings)
    requires Checked(toks, b) && pos < |toks| && CondBound(left, b)
    ensures var r := AndTail(toks, pos, left); r.Parsed? ==> CondBound(r.node, b)
    decreases |toks| - pos, 2
  {
    hide ParseNot;
    if IsKeyword(toks[pos], AND) {
      NotBound(toks, pos + 1, b);
      var right := ParseNot(toks, pos + 1);
      if right.Parsed? {
        AndTailBound(toks, right.next, And(left, right.node), b);
      }
    }
  }

  lemma {:induction false} AndBound(toks: seq<Token>, pos: nat, b: Bindings)
    requires Checked(toks, b) && pos < |toks|
    ensures var r := ParseAnd(toks, pos); r.Parsed? ==> CondBound(r.node, b)
    decreases |toks| - pos, 3
  {
    hide ParseNot, AndTail, CondBound;
    NotBound(toks, pos, b);
    var left := ParseNot(toks, pos);
    if left.Parsed? {
      AndTailBound(toks, left.next, left.node, b);
    }
  }

  lemma {:induction false} OrTailBound(toks: seq<Token>, pos: nat, left: Cond, b: Bindings)
    requires Checked(toks, b) && pos < |toks| && CondBound(left, b)
    ensures var r := OrTail(toks, pos, left); r.Parsed? ==> CondBound(r.node, b)
    decreases |toks| - pos, 4
  {
    hide ParseAnd;
    if IsKeyword(toks[pos], OR) {
      AndBound(toks, pos + 1, b);
      var right := ParseAnd(toks, pos + 1);
      if right.Parsed? {
        OrTailBound(toks, right.next, Or(left, right.node), b);
      }
    }
  }

  lemma {:induction false} OrBound(toks: seq<Token>, pos: nat, b: Bindings)
    requires Checked(toks, b) && pos < |toks|
    ensures var r := ParseOr(toks, pos); r.Parsed? ==> CondBound(r.node, b)
    decreases |toks| - pos, 5
  {
    hide ParseAnd, OrTail, CondBound;
    AndBound(toks, pos, b);
    var left := ParseAnd(toks, pos);
    if left.Parsed? {
      OrTailBound(toks, left.next, left.node, b);
    }
  }

  lemma {:induction false} WalkTotal(b: Bindings, v: Value, segs: seq<Seg>)
    requires forall s :: s in segs ==> SegBound(s, b)
    ensures Walk(b, v, segs).Ok?
    decreases |segs|
  {
    if segs != [] {
      assert SegBound(segs[0], b);
      match segs[0] {
        case Attr(name) =>
          var n := NameOf(b, name);
          if v.M? && n.value in v.fields {
            WalkTotal(b, v.fields[n.value], segs[1..]);
          }
        case Index(i) =>
          if v.L? && i < |v.list| {
            WalkTotal(b, v.list[i], segs[1..]);
          }
      }
    }
  }

  lemma ResolveTotal(lib: Lib, b: Bindings, item: Item, o: Operand)
    requires OperandBound(o, b) && Sizeless(o)
    ensures Resolve(lib, b, item, o).Ok?
  {
    if o.PathOp? && o.segs != [] && o.segs[0].Attr? {
      assert SegBound(o.segs[0], b);
      var n := NameOf(b, o.segs[0].name);
      if n.value in item {
        WalkTotal(b, item[n.value], o.segs[1..]);
      }
    }
  }

  lemma {:induction false} ResolveAllTotal(lib: Lib, b: Bindings, item: Item, os: seq<Operand>)
    requires forall o :: o in os ==> OperandBound(o, b) && Sizeless(o)
    ensures ResolveAll(lib, b, item, os).Ok?
  {
    if os != [] {
      ResolveTotal(lib, b, item, os[0]);
      ResolveAllTotal(lib, b, item, os[1..]);
    }
  }

  lemma {:induction false} EvalTotal(lib: Lib, b: Bindings, item: Item, c: Cond)
    requires CondBound(c, b) && NoSize(c)
    ensures Eval(lib, b, item, c).Ok?
  {
    hide OperandBound, Resolve;
    match c {
      case And(l, r) => EvalTotal(lib, b, item, l); EvalTotal(lib, b, item, r);
      case Or(l, r) => EvalTotal(lib, b, item, l); EvalTotal(lib, b, item, r);
      case Not(x) => EvalTotal(lib, b, item, x);
      case Cmp(l, _, r) => ResolveTotal(lib, b, item, l); ResolveTotal(lib, b, item, r);
      case Exists(p, _) => ResolveTotal(lib, b, item, p);
      case BeginsWith(p, a) => ResolveTotal(lib, b, item, p); ResolveTotal(lib, b, item, a);
      case Contains(p, a) => ResolveTotal(lib, b, item, p); ResolveTotal(lib, b, item, a);
      case Between(x, lo, hi) =>
        ResolveTotal(lib, b, item, x); ResolveTotal(lib, b, item, lo); ResolveTotal(lib, b, item, hi);
      case In(x, os) => ResolveTotal(lib, b, item, x); ResolveAllTotal(lib, b, item, os);
    }
  }

  // ---- exactly when evaluation fails

  /** The operand asks for the size of a BOOL or a NULL. */
  predicate Unsized(lib: Lib, b: Bindings, item: Item, o: Operand) {
    o.SizeOp? &&
    (Unsized(lib, b, item, o.path) ||
     var v := Resolve(lib, b, item, o.path);
     v.Ok? && v.value.Some? && (v.value.value.Bool? || v.value.value.Null?))
  }

  /** Evaluation comes to such an operand: AND and OR look at their right side only
      when the left one leaves the answer open, everything else at all its operands. */
  predicate Trips(lib: Lib, b: Bindings, item: Item, c: Cond) {
    match c
    case And(l, r) => Trips(lib, b, item, l) || (Eval(lib, b, item, l) == Ok(true) && Trips(lib, b, item, r))
    case Or(l, r) => Trips(lib, b, item, l) || (Eval(lib, b, item, l) == Ok(false) && Trips(lib, b, item, r))
    case Not(x) => Trips(lib, b, item, x)
    case Cmp(l, _, r) => Unsized(lib, b, item, l) || Unsized(lib, b, item, r)
    case Exists(p, _) => Unsized(lib, b, item, p)
    case BeginsWith(p, a) => Unsized(lib, b, item, p) || Unsized(lib, b, item, a)
    case Contains(p, a) => Unsized(lib, b, item, p) || Unsized(lib, b, item, a)
    case Between(x, lo, hi) =>
      Unsized(lib, b, item, x) || Unsized(lib, b, item, lo) || Unsized(lib, b, item, hi)
    case In(x, os) => Unsized(lib, b, item, x) || exists o :: o in os && Unsized(lib, b, item, o)
  }

  lemma {:induction false} ResolveFails(lib: Lib, b: Bindings, item: Item, o: Operand)
    requires OperandBound(o, b)
    ensures Resolve(lib, b, item, o).Error? <==> Unsized(lib, b, item, o)
  {
    if o.SizeOp? {
      ResolveFails(lib, b, item, o.path);
    } else {
      ResolveTotal(lib, b, item, o);
    }
  }

  lemma {:induction false} ResolveAllFails(lib: Lib, b: Bindings, item: Item, os: seq<Operand>)
    requires forall o :: o in os ==> OperandBound(o, b)
    ensures ResolveAll(lib, b, item, os).Error? <==> exists o :: o in os && Unsized(lib, b, item, o)
  {
    hide OperandBound, Resolve, Unsized;
    if os != [] {
      ResolveFails(lib, b, item, os[0]);
      ResolveAllFails(lib, b, item, os[1..]);
    }
  }

  /** With all placeholders bound, evaluation fails exactly when it comes to a
      size() of a BOOL or a NULL. */
  lemma {:induction false} EvalFailsExactly(lib: Lib, b: Bindings, item: Item, c: Cond)
    requires CondBound(c, b)
    ensures Eval(lib, b, item, c).Error? <==> Trips(lib, b, item, c)
  {
    hide OperandBound, Resolve, Unsized, Compares, Within, HasPrefix, ContainsValue;
    match c {
      case And(l, r) => EvalFailsExactly(lib, b, item, l); EvalFailsExactly(lib, b, item, r);
      case Or(l, r) => EvalFailsExactly(lib, b, item, l); EvalFailsExactly(lib, b, item, r);
      case Not(x) => EvalFailsExactly(lib, b, item, x);
      case Cmp(l, _, r) => ResolveFails(lib, b, item, l); ResolveFails(lib, b, item, r);
      case Exists(p, _) => ResolveFails(lib, b, item, p);
      case BeginsWith(p, a) => ResolveFails(lib, b, item, p); ResolveFails(lib, b, item, a);
      case Contains(p, a) => ResolveFails(lib, b, item, p); ResolveFails(lib, b, item, a);
      case Between(x, lo, hi) =>
        ResolveFails(lib, b, item, x); ResolveFails(lib, b, item, lo); ResolveFails(lib, b, item, hi);
      case In(x, os) => ResolveFails(lib, b, item, x); ResolveAllFails(lib, b, item, os);
    }
  }

  /** Once an expression parses and its placeholders are bound, evaluating it on
      any item succeeds, unless it uses size(). */
  lemma ValidatedEvaluates(lib: Lib, expr: string, b: Bindings, item: Item)
    requires ParseFilter(expr).Some? && RefsBound(Lex(expr).value, b) && NoSize(ParseFilter(expr).value)
    ensures EvalFilter(lib, expr, b, item).Ok?
  {
    LexOk(expr);
    IdentsPlain(expr);
    OrBound(Lex(expr).value, 0, b);
    EvalTotal(lib, b, item, ParseFilter(expr).value);
  }

  /** An expression is answered exactly when it parses, every placeholder it
      mentions is bound and evaluation comes to no size() of a BOOL or a NULL. */
  lemma FilterFailsExactly(lib: Lib, expr: string, b: Bindings, item: Item)
    ensures EvalFilter(lib, expr, b, item).Ok? <==>
              && ParseFilter(expr).Some?
              && RefsBound(Lex(expr).value, b)
              && !Trips(lib, b, item, ParseFilter(expr).value)
  {
    hide Trips, Eval;
    if ParseFilter(expr).Some? && RefsBound(Lex(expr).value, b) {
      LexOk(expr);
      IdentsPlain(expr);
      OrBound(Lex(expr).value, 0, b);
      EvalFailsExactly(lib, b, item, ParseFilter(expr).value);
    }
  }
}
