/** The parser and the grammar agree: what is parsed is derived (`…Sound`), and what is
    derived is parsed (`…Found`), whatever comes before and after it. */
module Derivations {
  import opened Values
  import opened Lexer
  import opened Parser
  import opened RoundTrip
  import opened Grammar

  // ---- words

  predicate NoLower(w: string) { forall i :: 0 <= i < |w| ==> !('a' <= w[i] <= 'z') }

  lemma {:induction false} UpperAlike(s: string, w: string)
    requires NoLower(w)
    ensures Upper(s) == w <==> Alike(s, w)
  {
    if s != [] && w != [] {
      UpperAlike(s[1..], w[1..]);
      assert Upper(s)[1..] == Upper(s[1..]);
      assert w == [w[0]] + w[1..];
      if Alike(s, w) {
        assert forall i :: 0 <= i < |s[1..]| ==> s[1..][i] == s[i + 1] && w[1..][i] == w[i + 1];
      }
      if Upper(s) == w {
        assert Alike(s[1..], w[1..]);
        assert forall i :: 1 <= i < |s| ==> s[i] == s[1..][i - 1] && w[i] == w[1..][i - 1];
      }
    }
  }

  lemma KeywordIs(t: Token, k: Keyword)
    ensures IsKeyword(t, k) <==> Is(t, KeywordText(k))
  {
    if t.Ident? {
      UpperAlike(t.text, KeywordText(k));
    }
  }

  lemma FunctionIs(t: Token)
    ensures FuncOf(t).AttributeExists? <==> Is(t, "ATTRIBUTE_EXISTS")
    ensures FuncOf(t).AttributeNotExists? <==> Is(t, "ATTRIBUTE_NOT_EXISTS")
    ensures FuncOf(t).BeginsWithFn? <==> Is(t, "BEGINS_WITH")
    ensures FuncOf(t).ContainsFn? <==> Is(t, "CONTAINS")
    ensures FuncOf(t).NoFunc? <==> !IsFunction(t)
  {
    if t.Ident? {
      UpperAlike(t.text, "ATTRIBUTE_EXISTS");
      UpperAlike(t.text, "ATTRIBUTE_NOT_EXISTS");
      UpperAlike(t.text, "BEGINS_WITH");
      UpperAlike(t.text, "CONTAINS");
    }
  }

  // ---- paths

  lemma {:induction false} TailSound(toks: seq<Token>, i: nat, pos: nat, segs: seq<Seg>)
    requires TokensOk(toks) && i < pos < |toks| && SegsD(toks, i, pos, segs)
    ensures var r := PathTail(toks, pos, segs); r.Parsed? ==> segs <= r.node && SegsD(toks, i, r.next, r.node)
    decreases |toks| - pos
  {
    if toks[pos].Dot? && IsName(toks[pos + 1]) {
      var more := segs + [Attr(toks[pos + 1].text)];
      assert more[..|segs|] == segs;
      assert SegsD(toks, i, pos + 2, more);
      TailSound(toks, i, pos + 2, more);
    } else if toks[pos].ListIdx? {
      var more := segs + [Index(Atoi(toks[pos].text))];
      assert more[..|segs|] == segs;
      assert SegsD(toks, i, pos + 1, more);
      TailSound(toks, i, pos + 1, more);
    }
  }

  lemma PathSound(toks: seq<Token>, i: nat)
    requires TokensOk(toks) && i < |toks|
    ensures var r := ParseAttrPath(toks, i); r.Parsed? ==> PathD(toks, i, r.next, r.node) && IsPath(r.node)
  {
    hide PathTail, SegsD;
    if IsName(toks[i]) {
      var head := [Attr(toks[i].text)];
      HeadAlone(toks, i);
      TailSound(toks, i, i + 1, head);
    }
  }

  lemma HeadAlone(toks: seq<Token>, i: nat)
    requires i < |toks| && IsName(toks[i])
    ensures SegsD(toks, i, i + 1, [Attr(toks[i].text)])
  {
  }

  predicate IsPath(o: Operand) { o.NameOp? || o.PlainOp? || o.PathOp? }

  lemma {:induction false} TailFound(toks: seq<Token>, i: nat, j: nat, segs: seq<Seg>)
    requires TokensOk(toks) && i <= j < |toks| && SegsD(toks, i, j, segs)
    ensures segs != [] && segs[0].Attr? && i < j && Named(toks[i], segs[0].name)
    ensures PathTail(toks, i + 1, [segs[0]]) == PathTail(toks, j, segs)
    decreases |segs|
  {
    var n := |segs| - 1;
    if n <= 0 {
      assert segs == [segs[0]];
    } else {
      var init := segs[..n];
      assert segs == init + [segs[n]];
      match segs[n] {
        case Attr(name) => TailFound(toks, i, j - 2, init);
        case Index(_) => TailFound(toks, i, j - 1, init);
      }
    }
  }

  lemma PathFound(toks: seq<Token>, i: nat, j: nat, o: Operand)
    requires TokensOk(toks) && i <= j < |toks| && PathD(toks, i, j, o) && Stops(toks[j])
    ensures ParseAttrPath(toks, i) == Parsed(o, j) && i < j && IsPath(o) && IsName(toks[i])
  {
    hide SegsD;
    TailFound(toks, i, j, Segs(o));
  }

  // ---- operands

  lemma SizeSound(toks: seq<Token>, i: nat)
    requires TokensOk(toks) && i < |toks| && IsKeyword(toks[i], SIZE)
    ensures var r := ParseSize(toks, i); r.Parsed? ==> OperandD(toks, i, r.next, r.node) && r.node.SizeOp?
  {
    hide PathD, ParseAttrPath, Alike, Upper;
    KeywordIs(toks[i], SIZE);
    if i + 2 < |toks| {
      PathSound(toks, i + 2);
    }
  }

  lemma OperandSound(toks: seq<Token>, i: nat)
    requires TokensOk(toks) && i < |toks|
    ensures var r := ParseOperand(toks, i); r.Parsed? ==> OperandD(toks, i, r.next, r.node)
  {
    hide PathD, ParseAttrPath, ParseSize, Alike, Upper;
    KeywordIs(toks[i], SIZE);
    if IsKeyword(toks[i], SIZE) {
      SizeSound(toks, i);
    } else {
      PathSound(toks, i);
    }
  }

  lemma OperandFound(toks: seq<Token>, i: nat, j: nat, o: Operand)
    requires TokensOk(toks) && i <= j < |toks| && OperandD(toks, i, j, o) && Stops(toks[j])
    ensures i < j && ParseOperand(toks, i) == Parsed(o, j)
    ensures !o.ValOp? ==> Parsed(o, j) == if IsKeyword(toks[i], SIZE) then ParseSize(toks, i) else ParseAttrPath(toks, i)
  {
    hide PathD, ParseAttrPath, Alike, Upper;
    KeywordIs(toks[i], SIZE);
    match o {
      case ValOp(_) =>
      case SizeOp(path) => PathFound(toks, i + 2, j - 1, path);
      case _ => PathFound(toks, i, j, o);
    }
  }

  lemma {:induction false} ListSound(toks: seq<Token>, i: nat, pos: nat, os: seq<Operand>)
    requires TokensOk(toks) && i < pos < |toks| && OperandsD(toks, i, pos, os) && |os| <= MAX_IN
    ensures var r := InTail(toks, pos, os); r.Parsed? ==> OperandsD(toks, i, r.next, r.node) && |r.node| <= MAX_IN
    decreases |toks| - pos
  {
    hide ParseOperand, OperandD;
    if toks[pos].Comma? {
      var v := ParseOperand(toks, pos + 1);
      if v.Parsed? && |os| + 1 <= MAX_IN {
        OperandSound(toks, pos + 1);
        var more := os + [v.node];
        assert more[..|os|] == os;
        assert toks[pos] == Comma;
        assert OperandsD(toks, i, v.next, more);
        ListSound(toks, i, v.next, more);
      }
    }
  }

  lemma {:induction false} ListFound(toks: seq<Token>, i: nat, j: nat, os: seq<Operand>)
    requires TokensOk(toks) && i <= j < |toks| && OperandsD(toks, i, j, os) && |os| <= MAX_IN && Stops(toks[j])
    ensures os != [] && i < j
    ensures var first := ParseOperand(toks, i);
            first.Parsed? && InTail(toks, first.next, [first.node]) == InTail(toks, j, os)
    decreases |os|
  {
    hide ParseOperand, OperandD;
    var n := |os| - 1;
    if n <= 0 {
      OperandFound(toks, i, j, os[0]);
      assert os == [os[0]];
    } else {
      var k :| i < k < j && toks[k] == Comma && OperandsD(toks, i, k, os[..n]) && OperandD(toks, k + 1, j, os[n]);
      ListFound(toks, i, k, os[..n]);
      OperandFound(toks, k + 1, j, os[n]);
      assert os == os[..n] + [os[n]];
    }
  }

  // ---- comparisons and function calls

  lemma BetweenSound(toks: seq<Token>, k: nat, left: Operand)
    requires TokensOk(toks) && k < |toks|
    ensures var r := ParseBetween(toks, k, left);
            r.Parsed? ==> r.node.Between? && r.node.attr == left && BoundsD(toks, k, r.next, r.node.lo, r.node.hi)
  {
    hide ParseOperand, OperandD, Alike, Upper;
    OperandSound(toks, k);
    var lo := ParseOperand(toks, k);
    if lo.Parsed? && lo.next + 1 < |toks| {
      KeywordIs(toks[lo.next], AND);
      OperandSound(toks, lo.next + 1);
    }
  }

  lemma InSound(toks: seq<Token>, k: nat, left: Operand)
    requires TokensOk(toks) && k < |toks|
    ensures var r := ParseIn(toks, k, left);
            r.Parsed? ==> && r.node.In? && r.node.attr == left && k + 1 < r.next && toks[k] == LParen
                          && OperandsD(toks, k + 1, r.next - 1, r.node.choices) && |r.node.choices| <= 100 && toks[r.next - 1] == RParen
  {
    hide ParseOperand, InTail, OperandD;
    if k + 1 < |toks| {
      OperandSound(toks, k + 1);
      var first := ParseOperand(toks, k + 1);
      if first.Parsed? {
        ListSound(toks, k + 1, first.next, [first.node]);
      }
    }
  }

  lemma RelationSound(toks: seq<Token>, k: nat, left: Operand)
    requires TokensOk(toks) && k < |toks|
    ensures var r := ParseRelation(toks, k, left);
            r.Parsed? ==> LeftOf(r.node) == left && (r.node.Cmp? || r.node.Between? || r.node.In?) && RelationD(toks, k, r.next, r.node)
  {
    hide ParseOperand, ParseBetween, ParseIn, OperandD, OperandsD, BoundsD, Alike, Upper;
    KeywordIs(toks[k], BETWEEN);
    KeywordIs(toks[k], IN);
    if k + 1 < |toks| {
      BetweenSound(toks, k + 1, left);
      InSound(toks, k + 1, left);
      OperandSound(toks, k + 1);
    }
  }

  lemma ComparisonSound(toks: seq<Token>, i: nat)
    requires TokensOk(toks) && i < |toks| && FuncOf(toks[i]).NoFunc?
    ensures var r := ParseComparison(toks, i); r.Parsed? ==> LeafD(toks, i, r.next, r.node)
  {
    hide ParseAttrPath, ParseSize, ParseRelation, LeftD, RelationD, Upper;
    var left := if IsKeyword(toks[i], SIZE) then ParseSize(toks, i) else ParseAttrPath(toks, i);
    LeftSound(toks, i);
    if left.Parsed? {
      RelationSound(toks, left.next, left.node);
    }
  }

  lemma LeftSound(toks: seq<Token>, i: nat)
    requires TokensOk(toks) && i < |toks| && FuncOf(toks[i]).NoFunc?
    ensures var left := if IsKeyword(toks[i], SIZE) then ParseSize(toks, i) else ParseAttrPath(toks, i);
            left.Parsed? ==> LeftD(toks, i, left.next, left.node)
  {
    hide ParseAttrPath, ParseSize, PathD, IsFunction, Upper, Alike;
    FunctionIs(toks[i]);
    KeywordIs(toks[i], SIZE);
    if IsKeyword(toks[i], SIZE) {
      SizeSound(toks, i);
    } else {
      PathSound(toks, i);
    }
  }

  lemma ExistsSound(toks: seq<Token>, i: nat, negate: bool, word: string)
    requires TokensOk(toks) && i < |toks| && Is(toks[i], word)
    ensures var r := ParseExists(toks, i, negate);
            r.Parsed? ==> r.node.Exists? && r.node.negate == negate && OneArgD(toks, i, r.next, word, r.node.path)
  {
    hide ParseAttrPath, PathD, Alike;
    if i + 2 < |toks| {
      PathSound(toks, i + 2);
    }
  }

  lemma TwoArgsSound(toks: seq<Token>, i: nat, f: Func, word: string)
    requires TokensOk(toks) && i < |toks| && Is(toks[i], word)
    ensures var r := ParseTwoArgs(toks, i, f);
            r.Parsed? ==> if f.BeginsWithFn? then r.node.BeginsWith? && TwoArgsD(toks, i, r.next, word, r.node.path, r.node.arg)
                          else r.node.Contains? && TwoArgsD(toks, i, r.next, word, r.node.path, r.node.arg)
  {
    hide ParseAttrPath, ParseOperand, PathD, OperandD, Alike;
    if i + 2 < |toks| {
      PathSound(toks, i + 2);
      var path := ParseAttrPath(toks, i + 2);
      if path.Parsed? && path.next + 1 < |toks| {
        OperandSound(toks, path.next + 1);
      }
    }
  }

  // ---- connectives

  lemma {:induction false} PrimarySound(toks: seq<Token>, i: nat)
    requires TokensOk(toks) && i < |toks|
    ensures var r := ParsePrimary(toks, i); r.Parsed? ==> PrimaryD(toks, i, r.next, r.node)
    decreases |toks| - i, 0
  {
    hide ParseOr, ParseExists, ParseTwoArgs, ParseComparison, OrD, OneArgD, TwoArgsD, LeftD, RelationD, Alike, Upper;
    if toks[i].LParen? {
      OrSound(toks, i + 1);
    } else {
      FunctionIs(toks[i]);
      match FuncOf(toks[i]) {
        case AttributeExists => ExistsSound(toks, i, false, "ATTRIBUTE_EXISTS");
        case AttributeNotExists => ExistsSound(toks, i, true, "ATTRIBUTE_NOT_EXISTS");
        case BeginsWithFn => TwoArgsSound(toks, i, BeginsWithFn, "BEGINS_WITH");
        case ContainsFn => TwoArgsSound(toks, i, ContainsFn, "CONTAINS");
        case NoFunc => ComparisonSound(toks, i);
      }
    }
  }

  lemma {:induction false} NotSound(toks: seq<Token>, i: nat)
    requires TokensOk(toks) && i < |toks|
    ensures var r := ParseNot(toks, i); r.Parsed? ==> NotD(toks, i, r.next, r.node)
    decreases |toks| - i, 1
  {
    hide ParsePrimary, PrimaryD, Alike, Upper;
    KeywordIs(toks[i], NOT);
    if IsKeyword(toks[i], NOT) {
      PrimarySound(toks, i + 1);
    } else {
      PrimarySound(toks, i);
    }
  }

  lemma {:induction false} AndTailSound(toks: seq<Token>, i: nat, pos: nat, left: Cond)
    requires TokensOk(toks) && i < pos < |toks| && AndD(toks, i, pos, left)
    ensures var r := AndTail(toks, pos, left); r.Parsed? ==> AndD(toks, i, r.next, r.node)
    decreases |toks| - pos, 2
  {
    hide ParseNot, NotD, Alike, Upper;
    KeywordIs(toks[pos], AND);
    if IsKeyword(toks[pos], AND) {
      NotSound(toks, pos + 1);
      var right := ParseNot(toks, pos + 1);
      if right.Parsed? {
        AndTailSound(toks, i, right.next, And(left, right.node));
      }
    }
  }

  lemma {:induction false} AndSound(toks: seq<Token>, i: nat)
    requires TokensOk(toks) && i < |toks|
    ensures var r := ParseAnd(toks, i); r.Parsed? ==> AndD(toks, i, r.next, r.node)
    decreases |toks| - i, 3
  {
    hide ParseNot, NotD, AndTail;
    NotSound(toks, i);
    var left := ParseNot(toks, i);
    if left.Parsed? {
      AndTailSound(toks, i, left.next, left.node);
    }
  }

  lemma {:induction false} OrTailSound(toks: seq<Token>, i: nat, pos: nat, left: Cond)
    requires TokensOk(toks) && i < pos < |toks| && OrD(toks, i, pos, left)
    ensures var r := OrTail(toks, pos, left); r.Parsed? ==> OrD(toks, i, r.next, r.node)
    decreases |toks| - pos, 4
  {
    hide ParseAnd, AndD, Alike, Upper;
    KeywordIs(toks[pos], OR);
    if IsKeyword(toks[pos], OR) {
      AndSound(toks, pos + 1);
      var right := ParseAnd(toks, pos + 1);
      if right.Parsed? {
        OrTailSound(toks, i, right.next, Or(left, right.node));
      }
    }
  }

  lemma {:induction false} OrSound(toks: seq<Token>, i: nat)
    requires TokensOk(toks) && i < |toks|
    ensures var r := ParseOr(toks, i); r.Parsed? ==> OrD(toks, i, r.next, r.node)
    decreases |toks| - i, 5
  {
    hide ParseAnd, AndD, OrTail;
    AndSound(toks, i);
    var left := ParseAnd(toks, i);
    if left.Parsed? {
      OrTailSound(toks, i, left.next, left.node);
    }
  }

  // ---- what is derived is parsed

  /** The operator of a comparison, or its keyword, ends the operand before it. */
  lemma RelationStops(toks: seq<Token>, k: nat, j: nat, c: Cond)
    requires k < j <= |toks| && RelationD(toks, k, j, c)
    ensures Stops(toks[k])
  {
    hide OperandD, BoundsD, OperandsD;
  }

  lemma RelationFound(toks: seq<Token>, k: nat, j: nat, c: Cond)
    requires TokensOk(toks) && k < j < |toks| && RelationD(toks, k, j, c) && Stops(toks[j])
    ensures ParseRelation(toks, k, LeftOf(c)) == Parsed(c, j)
  {
    hide ParseOperand, OperandD, ParseBetween, ParseIn, Upper;
    KeywordIs(toks[k], BETWEEN);
    KeywordIs(toks[k], IN);
    match c {
      case Cmp(_, op, r) => OperandFound(toks, k + 1, j, r);
      case Between(x, lo, hi) => BetweenFound(toks, k + 1, j, x, lo, hi);
      case In(x, os) =>
        BothWords(toks[k]);
        InFound(toks, k + 1, j, x, os);
    }
  }

  lemma BothWords(t: Token)
    ensures !(Is(t, "BETWEEN") && Is(t, "IN"))
  {
    if t.Ident? && |t.text| == 2 {
      assert |"BETWEEN"| == 7;
    }
  }

  lemma BetweenFound(toks: seq<Token>, i: nat, j: nat, x: Operand, lo: Operand, hi: Operand)
    requires TokensOk(toks) && i <= j < |toks| && BoundsD(toks, i, j, lo, hi) && Stops(toks[j])
    ensures ParseBetween(toks, i, x) == Parsed(Between(x, lo, hi), j)
  {
    hide ParseOperand, OperandD, Alike, Upper;
    var k :| i < k < j && Is(toks[k], "AND") && OperandD(toks, i, k, lo) && OperandD(toks, k + 1, j, hi);
    KeywordIs(toks[k], AND);
    OperandFound(toks, i, k, lo);
    OperandFound(toks, k + 1, j, hi);
  }

  lemma InFound(toks: seq<Token>, i: nat, j: nat, x: Operand, os: seq<Operand>)
    requires TokensOk(toks) && i + 1 < j < |toks| && toks[i] == LParen && toks[j - 1] == RParen
    requires OperandsD(toks, i + 1, j - 1, os) && |os| <= 100
    ensures ParseIn(toks, i, x) == Parsed(In(x, os), j)
  {
    hide ParseOperand, OperandsD, InTail;
    ListFound(toks, i + 1, j - 1, os);
    ListEnds(toks, j - 1, os);
  }

  lemma ListEnds(toks: seq<Token>, j: nat, os: seq<Operand>)
    requires TokensOk(toks) && j < |toks| && toks[j] == RParen
    ensures InTail(toks, j, os) == Parsed(os, j)
  {
  }

  lemma ComparisonFound(toks: seq<Token>, i: nat, k: nat, j: nat, c: Cond)
    requires TokensOk(toks) && i < k < j < |toks| && LeftD(toks, i, k, LeftOf(c)) && RelationD(toks, k, j, c) && Stops(toks[j])
    ensures ParseComparison(toks, i) == Parsed(c, j) && FuncOf(toks[i]).NoFunc? && !toks[i].LParen?
  {
    hide ParseAttrPath, ParseSize, ParseRelation, ParseOperand, OperandD, RelationD, IsFunction, Upper, Alike;
    FunctionIs(toks[i]);
    RelationStops(toks, k, j, c);
    OperandFound(toks, i, k, LeftOf(c));
    RelationFound(toks, k, j, c);
    OperandHead(toks, i, k, LeftOf(c));
  }

  lemma OperandHead(toks: seq<Token>, i: nat, k: nat, o: Operand)
    requires TokensOk(toks) && i < k < |toks| && OperandD(toks, i, k, o) && Stops(toks[k])
    ensures !toks[i].LParen?
  {
    hide SegsD, Alike;
    if !o.ValOp? && !o.SizeOp? {
      PathFound(toks, i, k, o);
    }
  }

  lemma ExistsFound(toks: seq<Token>, i: nat, j: nat, negate: bool, word: string, p: Operand)
    requires TokensOk(toks) && i <= j < |toks| && OneArgD(toks, i, j, word, p)
    ensures ParseExists(toks, i, negate) == Parsed(Exists(p, negate), j)
  {
    hide ParseAttrPath, PathD, Alike;
    PathFound(toks, i + 2, j - 1, p);
  }

  lemma TwoArgsFound(toks: seq<Token>, i: nat, j: nat, f: Func, word: string, p: Operand, a: Operand)
    requires TokensOk(toks) && i <= j < |toks| && TwoArgsD(toks, i, j, word, p, a)
    ensures ParseTwoArgs(toks, i, f) == Parsed(if f.BeginsWithFn? then BeginsWith(p, a) else Contains(p, a), j)
  {
    hide ParseAttrPath, ParseOperand, PathD, OperandD, Alike;
    var k :| i + 2 < k < j - 1 && toks[k] == Comma && PathD(toks, i + 2, k, p) && OperandD(toks, k + 1, j - 1, a);
    PathFound(toks, i + 2, k, p);
    OperandFound(toks, k + 1, j - 1, a);
  }

  lemma LeafFound(toks: seq<Token>, i: nat, j: nat, c: Cond)
    requires TokensOk(toks) && i <= j < |toks| && LeafD(toks, i, j, c) && Stops(toks[j])
    ensures ParsePrimary(toks, i) == Parsed(c, j) && !c.And? && !c.Or? && !c.Not?
  {
    hide ParseOr, ParseExists, ParseTwoArgs, ParseComparison, LeftD, RelationD, Alike, Upper;
    FunctionIs(toks[i]);
    LeafKinds(toks, i, j, c);
    if c.Exists? {
      ExistsFound(toks, i, j, c.negate, if c.negate then "ATTRIBUTE_NOT_EXISTS" else "ATTRIBUTE_EXISTS", c.path);
    } else if c.BeginsWith? {
      TwoArgsFound(toks, i, j, BeginsWithFn, "BEGINS_WITH", c.path, c.arg);
    } else if c.Contains? {
      TwoArgsFound(toks, i, j, ContainsFn, "CONTAINS", c.path, c.arg);
    } else {
      var k :| i < k < j && LeftD(toks, i, k, LeftOf(c)) && RelationD(toks, k, j, c);
      ComparisonFound(toks, i, k, j, c);
    }
  }

  lemma LeafKinds(toks: seq<Token>, i: nat, j: nat, c: Cond)
    requires i <= j <= |toks| && LeafD(toks, i, j, c)
    ensures !c.And? && !c.Or? && !c.Not?
  {
    hide LeftD, OneArgD, TwoArgsD;
  }

  lemma {:induction false} PrimaryFound(toks: seq<Token>, i: nat, j: nat, c: Cond)
    requires TokensOk(toks) && i <= j < |toks| && PrimaryD(toks, i, j, c) && Stops(toks[j])
    ensures ParsePrimary(toks, i) == Parsed(c, j)
    decreases j - i, 0
  {
    hide ParseOr, ParseExists, ParseTwoArgs, ParseComparison, LeafD, OrD, Alike, Upper;
    if LeafD(toks, i, j, c) {
      LeafFound(toks, i, j, c);
    } else {
      KeywordIs(toks[j - 1], AND);
      OrFound(toks, i + 1, j - 1, c);
      OrStops(toks, j - 1, c);
    }
  }

  lemma OrStops(toks: seq<Token>, j: nat, c: Cond)
    requires TokensOk(toks) && j < |toks| && !IsKeyword(toks[j], OR)
    ensures OrTail(toks, j, c) == Parsed(c, j)
  {
  }

  lemma {:induction false} NotFound(toks: seq<Token>, i: nat, j: nat, c: Cond)
    requires TokensOk(toks) && i <= j < |toks| && NotD(toks, i, j, c) && Stops(toks[j])
    ensures ParseNot(toks, i) == Parsed(c, j)
    decreases j - i, 1
  {
    hide ParsePrimary, PrimaryD, Alike, Upper;
    KeywordIs(toks[i], NOT);
    if Is(toks[i], "NOT") {
      PrimaryFound(toks, i + 1, j, c.operand);
    } else {
      PrimaryFound(toks, i, j, c);
    }
  }

  lemma {:induction false} AndFound(toks: seq<Token>, i: nat, j: nat, c: Cond)
    requires TokensOk(toks) && i <= j < |toks| && AndD(toks, i, j, c) && Stops(toks[j])
    ensures ParseAnd(toks, i) == AndTail(toks, j, c)
    decreases j - i, 2
  {
    hide ParseNot, NotD, Alike, Upper;
    if NotD(toks, i, j, c) {
      NotFound(toks, i, j, c);
    } else {
      var k :| i < k < j && Is(toks[k], "AND") && AndD(toks, i, k, c.left) && NotD(toks, k + 1, j, c.right);
      KeywordIs(toks[k], AND);
      AndFound(toks, i, k, c.left);
      NotFound(toks, k + 1, j, c.right);
    }
  }

  lemma {:induction false} OrFound(toks: seq<Token>, i: nat, j: nat, c: Cond)
    requires TokensOk(toks) && i <= j < |toks| && OrD(toks, i, j, c) && Stops(toks[j]) && !IsKeyword(toks[j], AND)
    ensures ParseOr(toks, i) == OrTail(toks, j, c)
    decreases j - i, 3
  {
    hide ParseAnd, AndD, AndTail, Alike, Upper;
    if AndD(toks, i, j, c) {
      AndFound(toks, i, j, c);
      AndStops(toks, j, c);
    } else {
      var k :| i < k < j && Is(toks[k], "OR") && OrD(toks, i, k, c.left) && AndD(toks, k + 1, j, c.right);
      KeywordIs(toks[k], OR);
      NotAndOr(toks[k]);
      OrFound(toks, i, k, c.left);
      AndFound(toks, k + 1, j, c.right);
      AndStops(toks, j, c.right);
    }
  }

  lemma AndStops(toks: seq<Token>, j: nat, c: Cond)
    requires TokensOk(toks) && j < |toks| && !IsKeyword(toks[j], AND)
    ensures AndTail(toks, j, c) == Parsed(c, j)
  {
  }

  lemma NotAndOr(t: Token)
    ensures !(IsKeyword(t, AND) && IsKeyword(t, OR))
  {
    hide Upper;
    assert |"AND"| == 3 && |"OR"| == 2;
  }

  /** The parser accepts exactly the texts that have a derivation and gives the tree
      derived; so no text derives two trees. */
  lemma ParsesExactly(expr: string, c: Cond)
    ensures ParseFilter(expr) == Some(c) <==> Derives(expr, c)
  {
    hide ParseOr, OrD, Scans, Upper, Lex;
    if ParseFilter(expr) == Some(c) {
      var toks := Lex(expr).value;
      LexOk(expr);
      ScansIff(expr, toks);
      OrSound(toks, 0);
      assert ParseOr(toks, 0).next == |toks| - 1;
      assert Scans(expr, toks);
    }
    if toks :| Scans(expr, toks) && toks != [] && OrD(toks, 0, |toks| - 1, c) {
      ScansIff(expr, toks);
      LexOk(expr);
      OrFound(toks, 0, |toks| - 1, c);
      OrStops(toks, |toks| - 1, c);
    }
  }
}
