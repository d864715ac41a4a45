/** Printing a condition tree with parentheses and parsing the text gives the
    tree back. Names are restricted only where the parser looks at them: a left
    operand must not begin with SIZE, a function name or, unless it stands
    directly behind a NOT, with NOT; a right operand not with SIZE. Every tree
    the parser yields keeps these rules. */
module RoundTrip {
  import opened Values
  import opened Lexer
  import opened Parser

  // ---- the printer

  function NameTok(name: string): Token {
    if "#" <= name then NameRef(name) else Ident(name)
  }

  function SegToks(seg: Seg): seq<Token> {
    match seg
    case Attr(name) => [Dot, NameTok(name)]
    case Index(i) => [ListIdx(Decimal(i))]
  }

  function TailToks(segs: seq<Seg>): seq<Token> {
    if segs == [] then [] else SegToks(segs[0]) + TailToks(segs[1..])
  }

  function PathToks(o: Operand): seq<Token>
    requires PathOk(o)
  {
    match o
    case NameOp(ref) => [NameRef(ref)]
    case PlainOp(name) => [Ident(name)]
    case PathOp(segs) => [NameTok(segs[0].name)] + TailToks(segs[1..])
  }

  const SizeTok := Ident("SIZE")

  function OperandToks(o: Operand): seq<Token>
    requires OperandOk(o) || LeftOk(o)
  {
    match o
    case ValOp(ref) => [ValRef(ref)]
    case SizeOp(path) => [SizeTok, LParen] + (PathToks(path) + [RParen])
    case _ => PathToks(o)
  }

  function ListToks(os: seq<Operand>): seq<Token>
    requires forall o :: o in os ==> OperandOk(o)
  {
    if os == [] then [] else [Comma] + (OperandToks(os[0]) + ListToks(os[1..]))
  }

  function ChoiceToks(os: seq<Operand>): seq<Token>
    requires |os| > 0 && forall o :: o in os ==> OperandOk(o)
  {
    [LParen] + (OperandToks(os[0]) + (ListToks(os[1..]) + [RParen]))
  }

  function BoundToks(lo: Operand, hi: Operand): seq<Token>
    requires OperandOk(lo) && OperandOk(hi)
  {
    OperandToks(lo) + ([KeyTok(AND)] + OperandToks(hi))
  }

  function OpTok(op: CmpOp): Token {
    match op
    case EqOp => Eq
    case NeqOp => Neq
    case LtOp => Lt
    case LteOp => Lte
    case GtOp => Gt
    case GteOp => Gte
  }

  function KeyTok(k: Keyword): Token { Ident(KeywordText(k)) }

  function FuncTok(f: Func): Token {
    match f
    case AttributeExists => Ident("ATTRIBUTE_EXISTS")
    case AttributeNotExists => Ident("ATTRIBUTE_NOT_EXISTS")
    case BeginsWithFn => Ident("BEGINS_WITH")
    case ContainsFn => Ident("CONTAINS")
    case NoFunc => Dot
  }

  function ArgToks(path: Operand, arg: Operand): seq<Token>
    requires PathOk(path) && OperandOk(arg)
  {
    [LParen] + (PathToks(path) + ([Comma] + (OperandToks(arg) + [RParen])))
  }

  function CondToks(c: Cond): seq<Token>
    requires CondFits(c)
  {
    match c
    case And(l, r) => [LParen] + (CondToks(l) + ([KeyTok(AND)] + (CondToks(r) + [RParen])))
    case Or(l, r) => [LParen] + (CondToks(l) + ([KeyTok(OR)] + (CondToks(r) + [RParen])))
    case Not(x) => [LParen, KeyTok(NOT)] + (CondToks(x) + [RParen])
    case Cmp(l, op, r) => OperandToks(l) + ([OpTok(op)] + OperandToks(r))
    case Exists(p, negate) =>
      [FuncTok(if negate then AttributeNotExists else AttributeExists), LParen] + (PathToks(p) + [RParen])
    case BeginsWith(p, a) => [FuncTok(BeginsWithFn)] + ArgToks(p, a)
    case Contains(p, a) => [FuncTok(ContainsFn)] + ArgToks(p, a)
    case Between(x, lo, hi) =>
      OperandToks(x) + ([KeyTok(BETWEEN)] + BoundToks(lo, hi))
    case In(x, os) =>
      OperandToks(x) + ([KeyTok(IN)] + ChoiceToks(os))
  }

  function Spaced(toks: seq<Token>): (pieces: seq<Piece>)
    ensures |pieces| == |toks|
    ensures forall i :: 0 <= i < |toks| ==> pieces[i] == Piece(toks[i], true)
  {
    seq(|toks|, i requires 0 <= i < |toks| => Piece(toks[i], true))
  }

  function Print(c: Cond): string
    requires CondOk(c)
  {
    Spell(Spaced(CondToks(c)))
  }

  // ---- which trees can be written

  predicate SegOk(seg: Seg) {
    match seg
    case Attr(name) => Spellable(NameTok(name))
    case Index(i) => i <= MAX_INT
  }

  predicate PathOk(o: Operand) {
    match o
    case NameOp(ref) => Spellable(NameRef(ref))
    case PlainOp(name) => Spellable(Ident(name))
    case PathOp(segs) =>
      1 < |segs| <= MAX_DEPTH + 1 && segs[0].Attr? && forall s :: s in segs ==> SegOk(s)
    case _ => false
  }

  predicate OperandOk(o: Operand) {
    match o
    case ValOp(ref) => Spellable(ValRef(ref))
    case SizeOp(path) => PathOk(path)
    case _ => PathOk(o) && !IsKeyword(PathToks(o)[0], SIZE)
  }

  predicate LeftOk(o: Operand) {
    match o
    case ValOp(_) => false
    case SizeOp(path) => PathOk(path)
    case _ => PathOk(o) && !IsKeyword(PathToks(o)[0], SIZE) && FuncOf(PathToks(o)[0]).NoFunc?
  }

  predicate OpensPlain(o: Operand) {
    o.SizeOp? || (PathOk(o) && !IsKeyword(PathToks(o)[0], NOT))
  }

  /** The text of the tree does not begin with a name that reads as NOT. */
  predicate Opens(c: Cond) {
    match c
    case Cmp(l, _, _) => OpensPlain(l)
    case Between(x, _, _) => OpensPlain(x)
    case In(x, _) => OpensPlain(x)
    case _ => true
  }

  /** Trees that can stand behind a NOT, where the parser takes a second NOT for a name. */
  predicate CondFits(c: Cond) {
    match c
    case And(l, r) => CondFits(l) && Opens(l) && CondFits(r) && Opens(r)
    case Or(l, r) => CondFits(l) && Opens(l) && CondFits(r) && Opens(r)
    case Not(x) => CondFits(x)
    case Cmp(l, _, r) => LeftOk(l) && OperandOk(r)
    case Exists(p, _) => PathOk(p)
    case BeginsWith(p, a) => PathOk(p) && OperandOk(a)
    case Contains(p, a) => PathOk(p) && OperandOk(a)
    case Between(x, lo, hi) => LeftOk(x) && OperandOk(lo) && OperandOk(hi)
    case In(x, os) => LeftOk(x) && 1 <= |os| <= MAX_IN && forall o :: o in os ==> OperandOk(o)
  }

  predicate CondOk(c: Cond) { CondFits(c) && Opens(c) }

  // ---- parsing what was printed

  /** The tokens u stand in toks from pos on, with at least one token behind them. */
  predicate At(toks: seq<Token>, pos: nat, u: seq<Token>) {
    pos + |u| < |toks| && toks[pos..pos + |u|] == u
  }

  lemma AtSplit(toks: seq<Token>, pos: nat, a: seq<Token>, b: seq<Token>)
    requires At(toks, pos, a + b)
    ensures At(toks, pos, a) && At(toks, pos + |a|, b)
    ensures |a| > 0 ==> toks[pos] == a[0]
  {
    var u := a + b;
    assert toks[pos..pos + |a|] == toks[pos..pos + |u|][..|a|] == a;
    assert toks[pos + |a|..pos + |u|] == toks[pos..pos + |u|][|a|..] == b;
    if |a| > 0 {
      assert toks[pos] == toks[pos..pos + |u|][0];
    }
  }

  lemma AtBound(toks: seq<Token>, pos: nat, u: seq<Token>)
    requires At(toks, pos, u)
    ensures pos + |u| < |toks|
  {
  }

  lemma AtOne(toks: seq<Token>, pos: nat, u: seq<Token>, k: nat)
    requires At(toks, pos, u) && k < |u|
    ensures toks[pos + k] == u[k]
  {
    assert toks[pos + k] == toks[pos..pos + |u|][k];
  }

  /** Where the parts of `x y a )` stand. */
  lemma WrapLayout(toks: seq<Token>, pos: nat, x: Token, y: Token, a: seq<Token>)
    requires At(toks, pos, [x, y] + (a + [RParen]))
    ensures pos + 3 + |a| < |toks|
    ensures toks[pos] == x && toks[pos + 1] == y && At(toks, pos + 2, a)
    ensures toks[pos + 2 + |a|] == RParen
  {
    hide At;
    AtBound(toks, pos, [x, y] + (a + [RParen]));
    AtSplit(toks, pos, [x, y], a + [RParen]);
    AtOne(toks, pos, [x, y], 1);
    AtSplit(toks, pos + 2, a, [RParen]);
    AtOne(toks, pos + 2 + |a|, [RParen], 0);
  }

  /** A token that ends a path. */
  predicate Stops(t: Token) { !t.Dot? && !t.ListIdx? }

  /** Reading one written step of a path. */
  lemma TailStep(toks: seq<Token>, pos: nat, done: seq<Seg>, seg: Seg)
    requires TokensOk(toks) && SegOk(seg) && At(toks, pos, SegToks(seg))
    ensures PathTail(toks, pos, done) == PathTail(toks, pos + |SegToks(seg)|, done + [seg])
  {
    AtOne(toks, pos, SegToks(seg), 0);
    AtOne(toks, pos, SegToks(seg), |SegToks(seg)| - 1);
    if seg.Index? {
      NaturalOfDecimal(seg.index);
    }
  }

  lemma TailStop(toks: seq<Token>, pos: nat, done: seq<Seg>)
    requires TokensOk(toks) && pos < |toks| && Stops(toks[pos])
    ensures PathTail(toks, pos, done) == Parsed(done, pos)
  {
  }

  lemma {:induction false} TailParses(toks: seq<Token>, pos: nat, done: seq<Seg>, rest: seq<Seg>)
    requires TokensOk(toks) && (forall s :: s in rest ==> SegOk(s))
    requires At(toks, pos, TailToks(rest)) && Stops(toks[pos + |TailToks(rest)|])
    ensures PathTail(toks, pos, done) == Parsed(done + rest, pos + |TailToks(rest)|)
    decreases |rest|
  {
    hide PathTail, SegToks, TokensOk, At, SegOk;
    if rest == [] {
      AtBound(toks, pos, TailToks(rest));
      TailStop(toks, pos, done);
      assert done + rest == done;
    } else {
      var head := SegToks(rest[0]);
      AtSplit(toks, pos, head, TailToks(rest[1..]));
      TailStep(toks, pos, done, rest[0]);
      TailParses(toks, pos + |head|, done + [rest[0]], rest[1..]);
      assert (done + [rest[0]]) + rest[1..] == done + rest;
    }
  }

  lemma PathParses(toks: seq<Token>, pos: nat, o: Operand)
    requires TokensOk(toks) && PathOk(o)
    requires At(toks, pos, PathToks(o)) && Stops(toks[pos + |PathToks(o)|])
    ensures ParseAttrPath(toks, pos) == Parsed(o, pos + |PathToks(o)|)
    ensures toks[pos] == PathToks(o)[0]
  {
    hide PathTail, Decimal;
    AtOne(toks, pos, PathToks(o), 0);
    match o {
      case NameOp(ref) =>
        assert ref[..1] == "#";
        TailParses(toks, pos + 1, [Attr(ref)], []);
      case PlainOp(name) =>
        TailParses(toks, pos + 1, [Attr(name)], []);
      case PathOp(segs) =>
        AtSplit(toks, pos, [NameTok(segs[0].name)], TailToks(segs[1..]));
        TailParses(toks, pos + 1, segs[..1], segs[1..]);
        assert segs[..1] == [Attr(segs[0].name)];
        assert segs[..1] + segs[1..] == segs;
    }
  }

  lemma SizeParses(toks: seq<Token>, pos: nat, path: Operand)
    requires TokensOk(toks) && PathOk(path)
    requires At(toks, pos, [SizeTok, LParen] + (PathToks(path) + [RParen]))
    ensures ParseSize(toks, pos) == Parsed(SizeOp(path), pos + 3 + |PathToks(path)|)
    ensures IsKeyword(toks[pos], SIZE)
  {
    hide TokensOk, ParseAttrPath, PathToks, PathOk, At, Upper;
    WrapLayout(toks, pos, SizeTok, LParen, PathToks(path));
    PathParses(toks, pos + 2, path);
    UpperFixed("SIZE");
  }

  lemma OperandParses(toks: seq<Token>, pos: nat, o: Operand)
    requires TokensOk(toks) && OperandOk(o)
    requires At(toks, pos, OperandToks(o)) && Stops(toks[pos + |OperandToks(o)|])
    ensures ParseOperand(toks, pos) == Parsed(o, pos + |OperandToks(o)|)
  {
    match o {
      case ValOp(ref) => AtOne(toks, pos, [ValRef(ref)], 0);
      case SizeOp(path) => SizeParses(toks, pos, path);
      case _ => PathParses(toks, pos, o);
    }
  }

  /** The left operand parses, and no earlier look at its first token misleads the parser. */
  lemma LeftParses(toks: seq<Token>, pos: nat, o: Operand)
    requires TokensOk(toks) && LeftOk(o)
    requires At(toks, pos, OperandToks(o)) && Stops(toks[pos + |OperandToks(o)|])
    ensures (if IsKeyword(toks[pos], SIZE) then ParseSize(toks, pos) else ParseAttrPath(toks, pos))
            == Parsed(o, pos + |OperandToks(o)|)
    ensures OpensPlain(o) ==> !IsKeyword(toks[pos], NOT)
    ensures !toks[pos].LParen? && FuncOf(toks[pos]).NoFunc?
  {
    if o.SizeOp? {
      SizeParses(toks, pos, o.path);
    } else {
      PathParses(toks, pos, o);
    }
  }

  lemma ListStep(toks: seq<Token>, pos: nat, done: seq<Operand>, o: Operand)
    requires TokensOk(toks) && OperandOk(o) && |done| < MAX_IN
    requires At(toks, pos, [Comma] + OperandToks(o)) && Stops(toks[pos + 1 + |OperandToks(o)|])
    ensures InTail(toks, pos, done) == InTail(toks, pos + 1 + |OperandToks(o)|, done + [o])
  {
    hide OperandToks, OperandOk;
    AtSplit(toks, pos, [Comma], OperandToks(o));
    assert ParseOperand(toks, pos + 1) == Parsed(o, pos + 1 + |OperandToks(o)|) by {
      OperandParses(toks, pos + 1, o);
    }
    hide ParseOperand;
  }

  lemma ListStop(toks: seq<Token>, pos: nat, done: seq<Operand>)
    requires TokensOk(toks) && pos < |toks| && !toks[pos].Comma?
    ensures InTail(toks, pos, done) == Parsed(done, pos)
  {
  }

  lemma {:induction false} ListParses(toks: seq<Token>, pos: nat, done: seq<Operand>, rest: seq<Operand>)
    requires TokensOk(toks) && (forall o :: o in rest ==> OperandOk(o))
    requires |done| + |rest| <= MAX_IN
    requires At(toks, pos, ListToks(rest)) && toks[pos + |ListToks(rest)|].RParen?
    ensures InTail(toks, pos, done) == Parsed(done + rest, pos + |ListToks(rest)|)
    decreases |rest|
  {
    hide InTail, OperandToks, OperandOk, TokensOk, At;
    if rest == [] {
      AtBound(toks, pos, ListToks(rest));
      ListStop(toks, pos, done);
      assert done + rest == done;
    } else {
      var head, more := [Comma] + OperandToks(rest[0]), ListToks(rest[1..]);
      assert ListToks(rest) == head + more;
      AtSplit(toks, pos, head, more);
      if |rest| > 1 {
        AtOne(toks, pos + |head|, more, 0);
      }
      ListStep(toks, pos, done, rest[0]);
      ListParses(toks, pos + |head|, done + [rest[0]], rest[1..]);
      assert (done + [rest[0]]) + rest[1..] == done + rest;
    }
  }

  lemma CmpParses(toks: seq<Token>, pos: nat, c: Cond)
    requires TokensOk(toks) && c.Cmp? && CondFits(c)
    requires At(toks, pos, CondToks(c)) && Stops(toks[pos + |CondToks(c)|])
    ensures ParsePrimary(toks, pos) == Parsed(c, pos + |CondToks(c)|)
    ensures Opens(c) ==> !IsKeyword(toks[pos], NOT)
  {
    hide TokensOk, ParseAttrPath, ParseSize, ParseOperand, OperandToks, LeftOk, OperandOk, Expect, At;
    var l, r := OperandToks(c.lhs), OperandToks(c.rhs);
    AtSplit(toks, pos, l, [OpTok(c.op)] + r);
    AtSplit(toks, pos + |l|, [OpTok(c.op)], r);
    LeftParses(toks, pos, c.lhs);
    OperandParses(toks, pos + |l| + 1, c.rhs);
  }

  lemma BoundsParse(toks: seq<Token>, pos: nat, left: Operand, lo: Operand, hi: Operand)
    requires TokensOk(toks) && OperandOk(lo) && OperandOk(hi)
    requires At(toks, pos, BoundToks(lo, hi)) && Stops(toks[pos + |BoundToks(lo, hi)|])
    ensures ParseBetween(toks, pos, left) == Parsed(Between(left, lo, hi), pos + |BoundToks(lo, hi)|)
  {
    hide TokensOk, ParseOperand, OperandToks, OperandOk, Upper, At;
    AtBound(toks, pos, BoundToks(lo, hi));
    AtSplit(toks, pos, OperandToks(lo), [KeyTok(AND)] + OperandToks(hi));
    var next := pos + |OperandToks(lo)|;
    AtSplit(toks, next, [KeyTok(AND)], OperandToks(hi));
    UpperKeywords();
    OperandParses(toks, pos, lo);
    OperandParses(toks, next + 1, hi);
  }

  lemma BetweenParses(toks: seq<Token>, pos: nat, c: Cond)
    requires TokensOk(toks) && c.Between? && CondFits(c)
    requires At(toks, pos, CondToks(c)) && Stops(toks[pos + |CondToks(c)|])
    ensures ParsePrimary(toks, pos) == Parsed(c, pos + |CondToks(c)|)
    ensures Opens(c) ==> !IsKeyword(toks[pos], NOT)
  {
    hide TokensOk, ParseAttrPath, ParseSize, ParseBetween, OperandToks, LeftOk, OperandOk, Upper, At, BoundToks;
    var x, rest := OperandToks(c.attr), BoundToks(c.lo, c.hi);
    AtSplit(toks, pos, x, [KeyTok(BETWEEN)] + rest);
    AtSplit(toks, pos + |x|, [KeyTok(BETWEEN)], rest);
    UpperKeywords();
    LeftParses(toks, pos, c.attr);
    BoundsParse(toks, pos + |x| + 1, c.attr, c.lo, c.hi);
  }

  lemma UpperKeywords()
    ensures forall k: Keyword :: IsKeyword(KeyTok(k), k)
  {
    forall k: Keyword
      ensures IsKeyword(KeyTok(k), k)
    {
      UpperFixed(KeywordText(k));
    }
  }

  lemma UpperFunctions()
    ensures forall f: Func :: FuncOf(FuncTok(f)) == f && !IsKeyword(FuncTok(f), NOT)
  {
    hide Upper;
    UpperFixed("ATTRIBUTE_EXISTS");
    UpperFixed("ATTRIBUTE_NOT_EXISTS");
    UpperFixed("BEGINS_WITH");
    UpperFixed("CONTAINS");
  }

  lemma {:induction false} UpperFixed(s: string)
    requires forall i :: 0 <= i < |s| ==> !('a' <= s[i] <= 'z')
    ensures Upper(s) == s
  {
    if s != [] {
      UpperFixed(s[1..]);
    }
  }

  lemma ChoicesParse(toks: seq<Token>, pos: nat, left: Operand, os: seq<Operand>)
    requires TokensOk(toks) && 1 <= |os| <= MAX_IN && forall o :: o in os ==> OperandOk(o)
    requires At(toks, pos, ChoiceToks(os))
    ensures ParseIn(toks, pos, left) == Parsed(In(left, os), pos + |ChoiceToks(os)|)
  {
    hide TokensOk, ParseOperand, OperandToks, OperandOk, ListToks, InTail, At;
    var first, more := OperandToks(os[0]), ListToks(os[1..]);
    ChoiceLayout(toks, pos, first, more);
    ListStarts(os[1..]);
    OperandParses(toks, pos + 1, os[0]);
    ListParses(toks, pos + 1 + |first|, [os[0]], os[1..]);
    assert [os[0]] + os[1..] == os;
  }

  lemma ChoiceLayout(toks: seq<Token>, pos: nat, first: seq<Token>, more: seq<Token>)
    requires At(toks, pos, [LParen] + (first + (more + [RParen])))
    ensures pos + 2 + |first| + |more| < |toks|
    ensures toks[pos] == LParen && At(toks, pos + 1, first) && At(toks, pos + 1 + |first|, more)
    ensures toks[pos + 1 + |first| + |more|] == RParen
    ensures toks[pos + 1 + |first|] == (more + [RParen])[0]
  {
    hide At;
    AtBound(toks, pos, [LParen] + (first + (more + [RParen])));
    AtSplit(toks, pos, [LParen], first + (more + [RParen]));
    AtSplit(toks, pos + 1, first, more + [RParen]);
    AtOne(toks, pos + 1 + |first|, more + [RParen], 0);
    AtSplit(toks, pos + 1 + |first|, more, [RParen]);
    AtOne(toks, pos + 1 + |first| + |more|, [RParen], 0);
  }

  lemma ListStarts(os: seq<Operand>)
    requires forall o :: o in os ==> OperandOk(o)
    ensures os == [] ==> ListToks(os) == []
    ensures os != [] ==> ListToks(os) != [] && ListToks(os)[0] == Comma
  {
  }

  lemma InParses(toks: seq<Token>, pos: nat, c: Cond)
    requires TokensOk(toks) && c.In? && CondFits(c)
    requires At(toks, pos, CondToks(c))
    ensures ParsePrimary(toks, pos) == Parsed(c, pos + |CondToks(c)|)
    ensures Opens(c) ==> !IsKeyword(toks[pos], NOT)
  {
    hide TokensOk, ParseAttrPath, ParseSize, ParseIn, OperandToks, LeftOk, OperandOk, Upper, At, ChoiceToks;
    var x, rest := OperandToks(c.attr), ChoiceToks(c.choices);
    AtSplit(toks, pos, x, [KeyTok(IN)] + rest);
    AtSplit(toks, pos + |x|, [KeyTok(IN)], rest);
    UpperKeywords();
    LeftParses(toks, pos, c.attr);
    ChoicesParse(toks, pos + |x| + 1, c.attr, c.choices);
  }

  lemma ExistsParses(toks: seq<Token>, pos: nat, c: Cond)
    requires TokensOk(toks) && c.Exists? && CondFits(c) && At(toks, pos, CondToks(c))
    ensures ParsePrimary(toks, pos) == Parsed(c, pos + |CondToks(c)|)
    ensures !IsKeyword(toks[pos], NOT)
  {
    hide TokensOk, ParseAttrPath, PathToks, FuncOf, FuncTok, PathOk, Upper, At;
    var f := FuncTok(if c.negate then AttributeNotExists else AttributeExists);
    WrapLayout(toks, pos, f, LParen, PathToks(c.path));
    UpperFunctions();
    FuncTokWord(if c.negate then AttributeNotExists else AttributeExists);
    PathParses(toks, pos + 2, c.path);
  }

  lemma ArgsLayout(toks: seq<Token>, pos: nat, p: seq<Token>, a: seq<Token>)
    requires At(toks, pos, [LParen] + (p + ([Comma] + (a + [RParen]))))
    ensures pos + 3 + |p| + |a| < |toks|
    ensures toks[pos] == LParen && At(toks, pos + 1, p)
    ensures toks[pos + 1 + |p|] == Comma && At(toks, pos + 2 + |p|, a)
    ensures toks[pos + 2 + |p| + |a|] == RParen
  {
    hide At;
    AtBound(toks, pos, [LParen] + (p + ([Comma] + (a + [RParen]))));
    AtSplit(toks, pos, [LParen], p + ([Comma] + (a + [RParen])));
    AtSplit(toks, pos + 1, p, [Comma] + (a + [RParen]));
    AtSplit(toks, pos + 1 + |p|, [Comma], a + [RParen]);
    AtSplit(toks, pos + 2 + |p|, a, [RParen]);
    AtOne(toks, pos + 2 + |p| + |a|, [RParen], 0);
  }

  lemma ArgsParse(toks: seq<Token>, pos: nat, f: Func, path: Operand, arg: Operand)
    requires TokensOk(toks) && PathOk(path) && OperandOk(arg) && pos < |toks| && !toks[pos].EOF?
    requires At(toks, pos + 1, ArgToks(path, arg))
    ensures ParseTwoArgs(toks, pos, f)
            == Parsed(if f.BeginsWithFn? then BeginsWith(path, arg) else Contains(path, arg),
                      pos + 1 + |ArgToks(path, arg)|)
  {
    hide TokensOk, ParseAttrPath, ParseOperand, PathToks, OperandToks, PathOk, OperandOk, At;
    var p, a := PathToks(path), OperandToks(arg);
    ArgsLayout(toks, pos + 1, p, a);
    PathParses(toks, pos + 2, path);
    OperandParses(toks, pos + 3 + |p|, arg);
  }

  lemma FuncTokWord(f: Func)
    ensures !FuncTok(f).EOF? && !FuncTok(f).LParen?
  {
  }

  lemma TwoArgsParse(toks: seq<Token>, pos: nat, c: Cond)
    requires TokensOk(toks) && (c.BeginsWith? || c.Contains?) && CondFits(c) && At(toks, pos, CondToks(c))
    ensures ParsePrimary(toks, pos) == Parsed(c, pos + |CondToks(c)|)
    ensures !IsKeyword(toks[pos], NOT)
  {
    hide TokensOk, ParseTwoArgs, ArgToks, FuncOf, FuncTok, PathOk, OperandOk, Upper, At;
    var f := if c.BeginsWith? then BeginsWithFn else ContainsFn;
    AtBound(toks, pos, CondToks(c));
    UpperFunctions();
    FuncTokWord(f);
    AtSplit(toks, pos, [FuncTok(f)], ArgToks(c.path, c.arg));
    ArgsParse(toks, pos, f, c.path, c.arg);
  }

  // ---- connectives

  /** A condition on its own, closed by a token that continues nothing. */
  lemma Alone(toks: seq<Token>, pos: nat, c: Cond, next: nat)
    requires TokensOk(toks) && pos < |toks| && ParseNot(toks, pos) == Parsed(c, next)
    requires !toks[next].Ident?
    ensures ParseOr(toks, pos) == Parsed(c, next)
  {
    hide ParseNot;
    assert ParseAnd(toks, pos) == Parsed(c, next);
  }

  lemma AndRule(toks: seq<Token>, pos: nat, l: Cond, mid: nat, r: Cond, next: nat)
    requires TokensOk(toks) && pos < |toks| && ParseNot(toks, pos) == Parsed(l, mid)
    requires IsKeyword(toks[mid], AND) && ParseNot(toks, mid + 1) == Parsed(r, next)
    requires !toks[next].Ident?
    ensures ParseOr(toks, pos) == Parsed(And(l, r), next)
  {
    hide ParseNot;
    assert AndTail(toks, next, And(l, r)) == Parsed(And(l, r), next);
    assert ParseAnd(toks, pos) == Parsed(And(l, r), next);
  }

  lemma OrRule(toks: seq<Token>, pos: nat, l: Cond, mid: nat, r: Cond, next: nat)
    requires TokensOk(toks) && pos < |toks| && ParseNot(toks, pos) == Parsed(l, mid)
    requires IsKeyword(toks[mid], OR) && ParseNot(toks, mid + 1) == Parsed(r, next)
    requires !toks[next].Ident?
    ensures ParseOr(toks, pos) == Parsed(Or(l, r), next)
  {
    hide ParseNot;
    assert ParseAnd(toks, pos) == Parsed(l, mid);
    assert ParseAnd(toks, mid + 1) == Parsed(r, next);
    assert OrTail(toks, next, Or(l, r)) == Parsed(Or(l, r), next);
  }

  lemma ParenRule(toks: seq<Token>, pos: nat, c: Cond, next: nat)
    requires TokensOk(toks) && pos < |toks| && toks[pos].LParen?
    requires ParseOr(toks, pos + 1) == Parsed(c, next) && toks[next].RParen?
    ensures ParsePrimary(toks, pos) == Parsed(c, next + 1)
  {
  }

  lemma {:induction false} CondParses(toks: seq<Token>, pos: nat, c: Cond)
    requires TokensOk(toks) && CondFits(c)
    requires At(toks, pos, CondToks(c)) && Stops(toks[pos + |CondToks(c)|])
    ensures ParsePrimary(toks, pos) == Parsed(c, pos + |CondToks(c)|)
    ensures Opens(c) ==> !IsKeyword(toks[pos], NOT)
    decreases c, 1
  {
    match c {
      case And(_, _) => BinaryParses(toks, pos, c);
      case Or(_, _) => BinaryParses(toks, pos, c);
      case Not(_) => NotParses(toks, pos, c);
      case Cmp(_, _, _) => CmpParses(toks, pos, c);
      case Exists(_, _) => ExistsParses(toks, pos, c);
      case BeginsWith(_, _) => TwoArgsParse(toks, pos, c);
      case Contains(_, _) => TwoArgsParse(toks, pos, c);
      case Between(_, _, _) => BetweenParses(toks, pos, c);
      case In(_, _) => InParses(toks, pos, c);
    }
  }

  /** Where the parts of a parenthesised pair stand. */
  lemma PairLayout(toks: seq<Token>, pos: nat, a: seq<Token>, k: Token, b: seq<Token>)
    requires At(toks, pos, [LParen] + (a + ([k] + (b + [RParen]))))
    ensures pos + 3 + |a| + |b| < |toks|
    ensures toks[pos] == LParen && At(toks, pos + 1, a)
    ensures toks[pos + 1 + |a|] == k && At(toks, pos + 2 + |a|, b)
    ensures toks[pos + 2 + |a| + |b|] == RParen
  {
    hide At;
    AtBound(toks, pos, [LParen] + (a + ([k] + (b + [RParen]))));
    AtSplit(toks, pos, [LParen], a + ([k] + (b + [RParen])));
    AtSplit(toks, pos + 1, a, [k] + (b + [RParen]));
    AtSplit(toks, pos + 1 + |a|, [k], b + [RParen]);
    AtSplit(toks, pos + 2 + |a|, b, [RParen]);
    AtOne(toks, pos + 2 + |a| + |b|, [RParen], 0);
  }

  lemma PairToks(c: Cond)
    requires (c.And? || c.Or?) && CondFits(c)
    ensures CondOk(c.left) && CondOk(c.right)
    ensures CondToks(c) == [LParen] + (CondToks(c.left)
                           + ([KeyTok(if c.And? then AND else OR)] + (CondToks(c.right) + [RParen])))
  {
  }

  lemma BinaryParses(toks: seq<Token>, pos: nat, c: Cond)
    requires TokensOk(toks) && (c.And? || c.Or?) && CondFits(c) && At(toks, pos, CondToks(c))
    ensures ParsePrimary(toks, pos) == Parsed(c, pos + |CondToks(c)|)
    ensures !IsKeyword(toks[pos], NOT)
    decreases c, 0
  {
    hide TokensOk, ParsePrimary, ParseOr, CondToks, CondFits, Upper, At;
    PairToks(c);
    var a, b := CondToks(c.left), CondToks(c.right);
    var mid := pos + 1 + |a|;
    var next := mid + 1 + |b|;
    PairLayout(toks, pos, a, KeyTok(if c.And? then AND else OR), b);
    UpperKeywords();
    CondParses(toks, pos + 1, c.left);
    CondParses(toks, mid + 1, c.right);
    if c.And? {
      AndRule(toks, pos + 1, c.left, mid, c.right, next);
    } else {
      OrRule(toks, pos + 1, c.left, mid, c.right, next);
    }
    ParenRule(toks, pos, c, next);
  }

  lemma NotParses(toks: seq<Token>, pos: nat, c: Cond)
    requires TokensOk(toks) && c.Not? && CondFits(c) && At(toks, pos, CondToks(c))
    ensures ParsePrimary(toks, pos) == Parsed(c, pos + |CondToks(c)|)
    ensures !IsKeyword(toks[pos], NOT)
    decreases c, 0
  {
    hide TokensOk, ParsePrimary, ParseOr, CondToks, CondFits, Upper, At;
    NotToks(c);
    var a := CondToks(c.operand);
    var next := pos + 2 + |a|;
    WrapLayout(toks, pos, LParen, KeyTok(NOT), a);
    UpperKeywords();
    CondParses(toks, pos + 2, c.operand);
    Alone(toks, pos + 1, c, next);
    ParenRule(toks, pos, c, next);
  }

  lemma NotToks(c: Cond)
    requires c.Not? && CondFits(c)
    ensures CondFits(c.operand) && CondToks(c) == [LParen, KeyTok(NOT)] + (CondToks(c.operand) + [RParen])
  {
  }

  // ---- the printed text holds exactly these tokens

  predicate AllSpellable(toks: seq<Token>) {
    forall t :: t in toks ==> Spellable(t)
  }

  lemma KeywordsSpellable()
    ensures forall k: Keyword :: Spellable(KeyTok(k))
    ensures forall f: Func :: Spellable(FuncTok(f))
    ensures Spellable(SizeTok)
  {
    FunctionsSpellable();
  }

  lemma FunctionsSpellable()
    ensures forall f: Func :: Spellable(FuncTok(f))
  {
    assert AllWord("ATTRIBUTE_EXISTS") && AllWord("ATTRIBUTE_NOT_EXISTS");
    assert AllWord("BEGINS_WITH") && AllWord("CONTAINS");
  }

  lemma {:induction false} TailSpellable(segs: seq<Seg>)
    requires forall s :: s in segs ==> SegOk(s)
    ensures AllSpellable(TailToks(segs))
  {
    if segs != [] {
      assert SegOk(segs[0]);
      TailSpellable(segs[1..]);
    }
  }

  lemma PathSpellable(o: Operand)
    requires PathOk(o)
    ensures AllSpellable(PathToks(o))
  {
    if o.PathOp? {
      assert SegOk(o.segs[0]);
      TailSpellable(o.segs[1..]);
    }
  }

  lemma OperandSpellable(o: Operand)
    requires OperandOk(o) || LeftOk(o)
    ensures AllSpellable(OperandToks(o))
  {
    hide PathToks, Upper;
    if o.SizeOp? {
      PathSpellable(o.path);
      KeywordsSpellable();
    } else if !o.ValOp? {
      PathSpellable(o);
    }
  }

  lemma {:induction false} ListSpellable(os: seq<Operand>)
    requires forall o :: o in os ==> OperandOk(o)
    ensures AllSpellable(ListToks(os))
  {
    hide OperandOk, OperandToks;
    if os != [] {
      OperandSpellable(os[0]);
      ListSpellable(os[1..]);
    }
  }

  lemma {:induction false} CondSpellable(c: Cond)
    requires CondFits(c)
    ensures AllSpellable(CondToks(c))
  {
    hide OperandOk, LeftOk, PathOk, OperandToks, PathToks, KeyTok, FuncTok, Spellable;
    KeywordsSpellable();
    PunctuationSpellable();
    match c {
      case And(l, r) => CondSpellable(l); CondSpellable(r);
      case Or(l, r) => CondSpellable(l); CondSpellable(r);
      case Not(x) => CondSpellable(x);
      case Cmp(l, _, r) => OperandSpellable(l); OperandSpellable(r);
      case Exists(p, _) => PathSpellable(p);
      case BeginsWith(p, a) => PathSpellable(p); OperandSpellable(a);
      case Contains(p, a) => PathSpellable(p); OperandSpellable(a);
      case Between(x, lo, hi) => OperandSpellable(x); OperandSpellable(lo); OperandSpellable(hi);
      case In(x, os) => OperandSpellable(x); OperandSpellable(os[0]); ListSpellable(os[1..]);
    }
  }

  lemma PunctuationSpellable()
    ensures Spellable(LParen) && Spellable(RParen) && Spellable(Comma)
    ensures forall op: CmpOp :: Spellable(OpTok(op))
  {
  }

  /** Printing with parentheses and parsing the text is the identity on trees. */
  lemma PrintThenParse(c: Cond)
    requires CondOk(c)
    ensures ParseFilter(Print(c)) == Some(c)
  {
    hide CondToks, CondFits, Opens, TokensOk, Spell, Lex, ParseOr, ParsePrimary;
    var u := CondToks(c);
    CondSpellable(c);
    LexSpell(Spaced(u));
    assert Tokens(Spaced(u)) == u;
    LexOk(Print(c));
    var toks := u + [EOF];
    assert toks[0..0 + |u|] == u;
    CondParses(toks, 0, c);
    PlainNot(toks, 0, c, |u|);
    Alone(toks, 0, c, |u|);
  }

  lemma PlainNot(toks: seq<Token>, pos: nat, c: Cond, next: nat)
    requires TokensOk(toks) && pos < |toks| && ParsePrimary(toks, pos) == Parsed(c, next)
    requires !IsKeyword(toks[pos], NOT)
    ensures ParseNot(toks, pos) == Parsed(c, next)
  {
  }
}
