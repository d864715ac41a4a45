/** Which condition trees the parser yields: exactly those the printer can write.
    The lemmas follow the grammar, from the tokens a text can hold up to whole
    conditions. */
module ParsedTrees {
  import opened Values
  import opened Lexer
  import opened Parser
  import opened RoundTrip

  /** A token list whose tokens, apart from the final EOF, can each be spelled. */
  predicate Lexed(toks: seq<Token>) {
    && TokensOk(toks)
    && forall i :: 0 <= i < |toks| - 1 ==> Spellable(toks[i])
  }

  lemma {:induction false} WordTaken(s: string)
    ensures AllWord(s[..WordLength(s)])
    ensures s != [] && IsLetter(s[0]) ==> WordLength(s) > 0
  {
    if s != [] && IsWord(s[0]) {
      WordTaken(s[1..]);
      assert s[..WordLength(s)] == [s[0]] + s[1..][..WordLength(s[1..])];
    }
  }

  lemma HeadSpellable(s: string)
    requires s != []
    ensures LexHead(s).Tok? ==> Spellable(LexHead(s).token)
  {
    WordTaken(s);
    WordTaken(s[1..]);
    if s[0] == '#' || s[0] == ':' {
      var n := WordLength(s[1..]);
      assert s[..n + 1][1..] == s[1..][..n];
    }
  }

  lemma {:induction false} LexSpellable(s: string)
    ensures Lex(s).Some? ==>
              forall i :: 0 <= i < |Lex(s).value| - 1 ==> Spellable(Lex(s).value[i])
    ensures Lex(s).Some? ==> |Lex(s).value| > 0
    decreases |s|
  {
    hide LexHead, Spellable;
    if s != [] {
      HeadSpellable(s);
      match LexHead(s) {
        case Space => LexSpellable(s[1..]);
        case Bad =>
        case Tok(_, n) => LexSpellable(s[n..]);
      }
    }
  }

  // ---- paths and operands

  lemma {:induction false} PathTailOk(toks: seq<Token>, pos: nat, segs: seq<Seg>)
    requires Lexed(toks) && pos < |toks| && (forall s :: s in segs ==> SegOk(s))
    ensures var r := PathTail(toks, pos, segs);
            r.Parsed? ==> forall s :: s in r.node ==> SegOk(s)
    decreases |toks| - pos
  {
    if toks[pos].Dot? && IsName(toks[pos + 1]) {
      assert NameTok(toks[pos + 1].text) == toks[pos + 1];
      PathTailOk(toks, pos + 2, segs + [Attr(toks[pos + 1].text)]);
    } else if toks[pos].ListIdx? {
      PathTailOk(toks, pos + 1, segs + [Index(Atoi(toks[pos].text))]);
    }
  }

  /** A path that was read can be written, and its text begins with the token it was read from. */
  lemma PathReadOk(toks: seq<Token>, pos: nat)
    requires Lexed(toks) && pos < |toks|
    ensures var r := ParseAttrPath(toks, pos);
            r.Parsed? ==> PathOk(r.node) && PathToks(r.node)[0] == toks[pos]
  {
    hide PathTail;
    if IsName(toks[pos]) {
      var segs := [Attr(toks[pos].text)];
      assert NameTok(toks[pos].text) == toks[pos];
      PathTailOk(toks, pos + 1, segs);
      var tail := PathTail(toks, pos + 1, segs);
      if tail.Parsed? {
        assert segs <= tail.node;
        assert tail.node[0] == segs[0];
      }
    }
  }

  lemma SizeReadOk(toks: seq<Token>, pos: nat)
    requires Lexed(toks) && pos < |toks| && !toks[pos].EOF?
    ensures var r := ParseSize(toks, pos); r.Parsed? ==> r.node.SizeOp? && PathOk(r.node.path)
  {
    hide ParseAttrPath, PathOk, PathToks;
    if pos + 2 < |toks| {
      PathReadOk(toks, pos + 2);
    }
  }

  lemma OperandReadOk(toks: seq<Token>, pos: nat)
    requires Lexed(toks) && pos < |toks|
    ensures var r := ParseOperand(toks, pos); r.Parsed? ==> OperandOk(r.node)
  {
    hide ParseAttrPath, ParseSize;
    if IsKeyword(toks[pos], SIZE) {
      SizeReadOk(toks, pos);
    } else {
      PathReadOk(toks, pos);
    }
  }

  lemma LeftReadOk(toks: seq<Token>, pos: nat)
    requires Lexed(toks) && pos < |toks| && FuncOf(toks[pos]).NoFunc?
    ensures var r := if IsKeyword(toks[pos], SIZE) then ParseSize(toks, pos) else ParseAttrPath(toks, pos);
            r.Parsed? ==> LeftOk(r.node) && (!IsKeyword(toks[pos], NOT) ==> OpensPlain(r.node))
  {
    hide ParseAttrPath, ParseSize;
    if IsKeyword(toks[pos], SIZE) {
      SizeReadOk(toks, pos);
    } else {
      PathReadOk(toks, pos);
    }
  }

  lemma {:induction false} InTailOk(toks: seq<Token>, pos: nat, os: seq<Operand>)
    requires Lexed(toks) && pos < |toks| && |os| <= MAX_IN && (forall o :: o in os ==> OperandOk(o))
    ensures var r := InTail(toks, pos, os);
            r.Parsed? ==> |os| <= |r.node| <= MAX_IN && forall o :: o in r.node ==> OperandOk(o)
    decreases |toks| - pos
  {
    hide ParseOperand, OperandOk, Spellable;
    if toks[pos].Comma? {
      var v := ParseOperand(toks, pos + 1);
      OperandReadOk(toks, pos + 1);
      if v.Parsed? && |os| + 1 <= MAX_IN {
        InTailOk(toks, v.next, os + [v.node]);
      }
    }
  }

  // ---- conditions

  lemma BetweenOk(toks: seq<Token>, pos: nat, left: Operand)
    requires Lexed(toks) && pos < |toks|
    ensures var r := ParseBetween(toks, pos, left);
            r.Parsed? ==>
              && r.node.Between? && r.node.attr == left
              && OperandOk(r.node.lo) && OperandOk(r.node.hi)
  {
    hide ParseOperand, OperandOk, Spellable, Upper;
    OperandReadOk(toks, pos);
    var lo := ParseOperand(toks, pos);
    if lo.Parsed? && lo.next + 1 < |toks| {
      OperandReadOk(toks, lo.next + 1);
    }
  }

  lemma InOk(toks: seq<Token>, pos: nat, left: Operand)
    requires Lexed(toks) && pos < |toks|
    ensures var r := ParseIn(toks, pos, left);
            r.Parsed? ==>
              && r.node.In? && r.node.attr == left && 1 <= |r.node.choices| <= MAX_IN
              && forall o :: o in r.node.choices ==> OperandOk(o)
  {
    hide ParseOperand, OperandOk, Spellable, InTail;
    if pos + 1 < |toks| {
      OperandReadOk(toks, pos + 1);
      var first := ParseOperand(toks, pos + 1);
      if first.Parsed? {
        InTailOk(toks, first.next, [first.node]);
      }
    }
  }

  lemma RelationOk(toks: seq<Token>, pos: nat, left: Operand)
    requires Lexed(toks) && pos < |toks| && LeftOk(left)
    ensures var r := ParseRelation(toks, pos, left);
            r.Parsed? ==> CondFits(r.node) && (OpensPlain(left) ==> Opens(r.node))
  {
    hide ParseOperand, ParseBetween, ParseIn, LeftOk, OpensPlain, OperandOk, Spellable, Upper;
    if pos + 1 < |toks| {
      BetweenOk(toks, pos + 1, left);
      InOk(toks, pos + 1, left);
      OperandReadOk(toks, pos + 1);
    }
  }

  lemma ComparisonOk(toks: seq<Token>, pos: nat)
    requires Lexed(toks) && pos < |toks| && FuncOf(toks[pos]).NoFunc?
    ensures var r := ParseComparison(toks, pos);
            r.Parsed? ==> CondFits(r.node) && (!IsKeyword(toks[pos], NOT) ==> Opens(r.node))
  {
    hide ParseAttrPath, ParseSize, ParseRelation, LeftOk, OpensPlain, CondFits, Opens, Spellable, Upper;
    LeftReadOk(toks, pos);
    var left := if IsKeyword(toks[pos], SIZE) then ParseSize(toks, pos) else ParseAttrPath(toks, pos);
    if left.Parsed? {
      RelationOk(toks, left.next, left.node);
    }
  }

  lemma FunctionOk(toks: seq<Token>, pos: nat)
    requires Lexed(toks) && pos < |toks| && !toks[pos].EOF?
    ensures forall n: bool :: ParseExists(toks, pos, n).Parsed? ==> CondOk(ParseExists(toks, pos, n).node)
    ensures forall f: Func :: ParseTwoArgs(toks, pos, f).Parsed? ==> CondOk(ParseTwoArgs(toks, pos, f).node)
  {
    hide ParseAttrPath, ParseOperand, PathOk, PathToks, OperandOk, Spellable;
    if pos + 2 < |toks| {
      PathReadOk(toks, pos + 2);
      var path := ParseAttrPath(toks, pos + 2);
      if path.Parsed? && path.next + 1 < |toks| {
        OperandReadOk(toks, path.next + 1);
      }
    }
  }

  lemma {:induction false} PrimaryOk(toks: seq<Token>, pos: nat)
    requires Lexed(toks) && pos < |toks|
    ensures var r := ParsePrimary(toks, pos);
            r.Parsed? ==> CondFits(r.node) && (!IsKeyword(toks[pos], NOT) ==> Opens(r.node))
    decreases |toks| - pos, 0
  {
    hide ParseExists, ParseTwoArgs, ParseComparison, ParseOr, CondFits, Opens, Spellable;
    if toks[pos].LParen? {
      OrOk(toks, pos + 1);
    } else if FuncOf(toks[pos]).NoFunc? {
      ComparisonOk(toks, pos);
    } else {
      FunctionOk(toks, pos);
    }
  }

  lemma {:induction false} NotOk(toks: seq<Token>, pos: nat)
    requires Lexed(toks) && pos < |toks|
    ensures var r := ParseNot(toks, pos); r.Parsed? ==> CondOk(r.node)
    decreases |toks| - pos, 1
  {
    hide ParsePrimary, Spellable;
    if IsKeyword(toks[pos], NOT) {
      PrimaryOk(toks, pos + 1);
    } else {
      PrimaryOk(toks, pos);
    }
  }

  lemma {:induction false} AndTailOk(toks: seq<Token>, pos: nat, left: Cond)
    requires Lexed(toks) && pos < |toks| && CondOk(left)
    ensures var r := AndTail(toks, pos, left); r.Parsed? ==> CondOk(r.node)
    decreases |toks| - pos, 2
  {
    hide ParseNot, Spellable;
    if IsKeyword(toks[pos], AND) {
      NotOk(toks, pos + 1);
      var right := ParseNot(toks, pos + 1);
      if right.Parsed? {
        AndTailOk(toks, right.next, And(left, right.node));
      }
    }
  }

  lemma {:induction false} AndOk(toks: seq<Token>, pos: nat)
    requires Lexed(toks) && pos < |toks|
    ensures var r := ParseAnd(toks, pos); r.Parsed? ==> CondOk(r.node)
    decreases |toks| - pos, 3
  {
    hide ParseNot, AndTail, CondOk, Spellable;
    NotOk(toks, pos);
    var left := ParseNot(toks, pos);
    if left.Parsed? {
      AndTailOk(toks, left.next, left.node);
    }
  }

  lemma {:induction false} OrTailOk(toks: seq<Token>, pos: nat, left: Cond)
    requires Lexed(toks) && pos < |toks| && CondOk(left)
    ensures var r := OrTail(toks, pos, left); r.Parsed? ==> CondOk(r.node)
    decreases |toks| - pos, 4
  {
    hide ParseAnd, Spellable;
    if IsKeyword(toks[pos], OR) {
      AndOk(toks, pos + 1);
      var right := ParseAnd(toks, pos + 1);
      if right.Parsed? {
        OrTailOk(toks, right.next, Or(left, right.node));
      }
    }
  }

  lemma {:induction false} OrOk(toks: seq<Token>, pos: nat)
    requires Lexed(toks) && pos < |toks|
    ensures var r := ParseOr(toks, pos); r.Parsed? ==> CondOk(r.node)
    decreases |toks| - pos, 5
  {
    hide ParseAnd, OrTail, CondOk, Spellable;
    AndOk(toks, pos);
    var left := ParseAnd(toks, pos);
    if left.Parsed? {
      OrTailOk(toks, left.next, left.node);
    }
  }

  /** A parsed tree can be printed, and the canonical text parses to the same tree. */
  lemma ParseThenPrint(expr: string)
    ensures var c := ParseFilter(expr);
            c.Some? ==> CondOk(c.value) && ParseFilter(Print(c.value)) == c
  {
    hide CondFits, Opens, Print, Spellable, ParseOr, Lex;
    var toks := Lex(expr);
    if toks.Some? {
      LexOk(expr);
      LexSpellable(expr);
      OrOk(toks.value, 0);
      var c := ParseFilter(expr);
      if c.Some? {
        PrintThenParse(c.value);
      }
    }
  }

  /** The trees the parser yields are exactly those the printer can write. */
  lemma ParsedExactly(c: Cond)
    ensures CondOk(c) <==> exists expr :: ParseFilter(expr) == Some(c)
  {
    hide CondOk, Print, ParseFilter;
    if CondOk(c) {
      PrintThenParse(c);
    }
    if expr :| ParseFilter(expr) == Some(c) {
      ParseThenPrint(expr);
    }
  }
}
