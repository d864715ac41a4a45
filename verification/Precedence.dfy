/** How tightly the connectives bind: a condition printed with parentheses only where they
    are needed, around an OR under an AND, around either under a NOT, and around a right
    operand of the same connective, is parsed back to the same tree. */
module Precedence {
  import opened Values
  import opened Lexer
  import opened Parser
  import opened RoundTrip

  /** What may stand in a place without parentheses: anything, all but OR, no binary
      connective, no connective at all. */
  datatype Place = Loose | Factor | Term | Atom

  predicate Fits(c: Cond, place: Place) {
    match c
    case Or(_, _) => place.Loose?
    case And(_, _) => place.Loose? || place.Factor?
    case Not(_) => !place.Atom?
    case _ => true
  }

  function FewToks(c: Cond, place: Place): seq<Token>
    requires CondFits(c)
    decreases c, 1
  {
    if Fits(c, place) then BareToks(c) else [LParen] + (BareToks(c) + [RParen])
  }

  function BareToks(c: Cond): seq<Token>
    requires CondFits(c)
    decreases c, 0
  {
    match c
    case Or(l, r) => FewToks(l, Loose) + ([KeyTok(OR)] + FewToks(r, Factor))
    case And(l, r) => FewToks(l, Factor) + ([KeyTok(AND)] + FewToks(r, Term))
    case Not(x) => [KeyTok(NOT)] + FewToks(x, Atom)
    case _ => CondToks(c)
  }

  function PrintFew(c: Cond): string
    requires CondOk(c)
  {
    Spell(Spaced(FewToks(c, Loose)))
  }

  predicate IsLeaf(c: Cond) { !c.And? && !c.Or? && !c.Not? }

  /** What a parenthesised condition parses to. */
  lemma Enclosed(toks: seq<Token>, pos: nat, c: Cond, inner: seq<Token>)
    requires TokensOk(toks) && At(toks, pos, [LParen] + (inner + [RParen]))
    requires ParseOr(toks, pos + 1) == OrTail(toks, pos + 1 + |inner|, c)
    ensures ParsePrimary(toks, pos) == Parsed(c, pos + 2 + |inner|)
    ensures !IsKeyword(toks[pos], NOT)
  {
    hide ParseOr, At;
    InnerLayout(toks, pos, inner);
    assert OrTail(toks, pos + 1 + |inner|, c) == Parsed(c, pos + 1 + |inner|);
    ParenRule(toks, pos, c, pos + 1 + |inner|);
  }

  lemma InnerLayout(toks: seq<Token>, pos: nat, inner: seq<Token>)
    requires At(toks, pos, [LParen] + (inner + [RParen]))
    ensures pos + 2 + |inner| < |toks| && toks[pos] == LParen && toks[pos + 1 + |inner|] == RParen
    ensures At(toks, pos + 1, inner)
  {
    hide At;
    AtBound(toks, pos, [LParen] + (inner + [RParen]));
    AtSplit(toks, pos, [LParen], inner + [RParen]);
    AtSplit(toks, pos + 1, inner, [RParen]);
    AtOne(toks, pos + 1 + |inner|, [RParen], 0);
  }

  /** As an operand of NOT. */
  lemma {:induction false} AtomParses(toks: seq<Token>, pos: nat, c: Cond)
    requires TokensOk(toks) && CondFits(c) && At(toks, pos, FewToks(c, Atom))
    requires Stops(toks[pos + |FewToks(c, Atom)|])
    ensures ParsePrimary(toks, pos) == Parsed(c, pos + |FewToks(c, Atom)|)
    ensures Opens(c) ==> !IsKeyword(toks[pos], NOT)
    decreases c, 2
  {
    hide At, CondToks, ParsePrimary, ParseOr, CondFits, Upper;
    if IsLeaf(c) {
      CondParses(toks, pos, c);
    } else {
      var inner := BareToks(c);
      assert FewToks(c, Atom) == [LParen] + (inner + [RParen]);
      hide BareToks, FewToks;
      InnerLayout(toks, pos, inner);
      BareParses(toks, pos + 1, c);
      Enclosed(toks, pos, c, BareToks(c));
    }
  }

  /** As a right operand of AND. */
  lemma {:induction false} TermParses(toks: seq<Token>, pos: nat, c: Cond)
    requires TokensOk(toks) && CondOk(c) && At(toks, pos, FewToks(c, Term))
    requires Stops(toks[pos + |FewToks(c, Term)|])
    ensures ParseNot(toks, pos) == Parsed(c, pos + |FewToks(c, Term)|)
    decreases c, 3
  {
    if c.Not? {
      NegationParses(toks, pos, c);
    } else {
      assert FewToks(c, Term) == FewToks(c, Atom);
      AtomParses(toks, pos, c);
      PlainNot(toks, pos, c, pos + |FewToks(c, Atom)|);
    }
  }

  lemma {:induction false} NegationParses(toks: seq<Token>, pos: nat, c: Cond)
    requires TokensOk(toks) && CondFits(c) && c.Not? && At(toks, pos, BareToks(c))
    requires Stops(toks[pos + |BareToks(c)|])
    ensures ParseNot(toks, pos) == Parsed(c, pos + |BareToks(c)|)
    decreases c, 0
  {
    hide At, FewToks, ParsePrimary;
    var inner := FewToks(c.operand, Atom);
    AtBound(toks, pos, [KeyTok(NOT)] + inner);
    AtSplit(toks, pos, [KeyTok(NOT)], inner);
    UpperKeywords();
    AtomParses(toks, pos + 1, c.operand);
  }

  /** As a left operand of AND, or a right one of OR: the AND loop has come this far. */
  lemma {:induction false} FactorParses(toks: seq<Token>, pos: nat, c: Cond)
    requires TokensOk(toks) && CondOk(c) && At(toks, pos, FewToks(c, Factor))
    requires Stops(toks[pos + |FewToks(c, Factor)|])
    ensures ParseAnd(toks, pos) == AndTail(toks, pos + |FewToks(c, Factor)|, c)
    decreases c, 4
  {
    hide ParseNot, AndTail, FewToks, BareToks, CondToks, CondFits, Opens, Upper, At, TokensOk;
    Placed(c);
    AtBound(toks, pos, FewToks(c, Factor));
    if c.And? {
      ConjunctionParses(toks, pos, c);
    } else {
      TermParses(toks, pos, c);
    }
  }

  /** An AND stands bare as a factor, and anything else as it would as a term. */
  lemma Placed(c: Cond)
    requires CondFits(c)
    ensures FewToks(c, Factor) == if c.And? then BareToks(c) else FewToks(c, Term)
  {
    hide CondToks;
  }

  lemma {:induction false} ConjunctionParses(toks: seq<Token>, pos: nat, c: Cond)
    requires TokensOk(toks) && CondFits(c) && c.And? && At(toks, pos, BareToks(c))
    requires Stops(toks[pos + |BareToks(c)|])
    ensures ParseAnd(toks, pos) == AndTail(toks, pos + |BareToks(c)|, c)
    decreases c, 0
  {
    hide At, FewToks, ParseNot, Opens, TokensOk, Upper, CondToks;
    var l, r := FewToks(c.left, Factor), FewToks(c.right, Term);
    BinaryLayout(toks, pos, l, KeyTok(AND), r);
    UpperKeywords();
    FactorParses(toks, pos, c.left);
    TermParses(toks, pos + |l| + 1, c.right);
    AndStep(toks, pos + |l|, c.left, c.right, pos + |l| + 1 + |r|);
  }

  lemma AndStep(toks: seq<Token>, pos: nat, l: Cond, r: Cond, next: nat)
    requires TokensOk(toks) && pos + 1 < |toks| && IsKeyword(toks[pos], AND) && ParseNot(toks, pos + 1) == Parsed(r, next)
    ensures AndTail(toks, pos, l) == AndTail(toks, next, And(l, r))
  {
    hide ParseNot, IsKeyword;
  }

  lemma BinaryLayout(toks: seq<Token>, pos: nat, l: seq<Token>, k: Token, r: seq<Token>)
    requires At(toks, pos, l + ([k] + r))
    ensures pos + |l| + 1 + |r| < |toks|
    ensures At(toks, pos, l) && toks[pos + |l|] == k && At(toks, pos + |l| + 1, r)
  {
    hide At;
    AtBound(toks, pos, l + ([k] + r));
    AtSplit(toks, pos, l, [k] + r);
    AtSplit(toks, pos + |l|, [k], r);
  }

  /** Anywhere else: the OR loop has come this far, unless an AND follows. */
  lemma {:induction false} LooseParses(toks: seq<Token>, pos: nat, c: Cond)
    requires TokensOk(toks) && CondOk(c) && At(toks, pos, BareToks(c))
    requires Stops(toks[pos + |BareToks(c)|]) && !IsKeyword(toks[pos + |BareToks(c)|], AND)
    ensures ParseOr(toks, pos) == OrTail(toks, pos + |BareToks(c)|, c)
    decreases c, 5
  {
    hide CondToks, TokensOk;
    if c.Or? {
      DisjunctionParses(toks, pos, c);
    } else {
      assert FewToks(c, Factor) == BareToks(c);
      hide ParseAnd, OrTail, FewToks, BareToks, CondFits, Opens, Upper, At;
      AtBound(toks, pos, BareToks(c));
      FactorParses(toks, pos, c);
      AndEnds(toks, pos + |BareToks(c)|, c);
    }
  }

  lemma AndEnds(toks: seq<Token>, pos: nat, c: Cond)
    requires TokensOk(toks) && pos < |toks| && !IsKeyword(toks[pos], AND)
    ensures AndTail(toks, pos, c) == Parsed(c, pos)
  {
  }

  lemma {:induction false} DisjunctionParses(toks: seq<Token>, pos: nat, c: Cond)
    requires TokensOk(toks) && CondFits(c) && c.Or? && At(toks, pos, BareToks(c))
    requires Stops(toks[pos + |BareToks(c)|]) && !IsKeyword(toks[pos + |BareToks(c)|], AND)
    ensures ParseOr(toks, pos) == OrTail(toks, pos + |BareToks(c)|, c)
    decreases c, 0
  {
    hide At, FewToks, BareToks, CondFits, CondToks, ParseAnd, ParseOr, Opens, TokensOk, Upper;
    OrParts(c);
    var l, r := BareToks(c.left), FewToks(c.right, Factor);
    BinaryLayout(toks, pos, l, KeyTok(OR), r);
    UpperKeywords();
    OrIsNotAnd();
    LooseParses(toks, pos, c.left);
    FactorParses(toks, pos + |l| + 1, c.right);
    AndEnds(toks, pos + |l| + 1 + |r|, c.right);
    OrStep(toks, pos + |l|, c.left, c.right, pos + |l| + 1 + |r|);
  }

  lemma OrParts(c: Cond)
    requires CondFits(c) && c.Or?
    ensures CondOk(c.left) && CondOk(c.right)
    ensures BareToks(c) == BareToks(c.left) + ([KeyTok(OR)] + FewToks(c.right, Factor))
  {
    assert FewToks(c.left, Loose) == BareToks(c.left);
  }

  lemma OrIsNotAnd()
    ensures !IsKeyword(KeyTok(OR), AND)
  {
    UpperFixed("OR");
  }

  lemma OrStep(toks: seq<Token>, pos: nat, l: Cond, r: Cond, next: nat)
    requires TokensOk(toks) && pos + 1 < |toks| && IsKeyword(toks[pos], OR) && ParseAnd(toks, pos + 1) == Parsed(r, next)
    ensures OrTail(toks, pos, l) == OrTail(toks, next, Or(l, r))
  {
    hide ParseAnd, IsKeyword;
  }

  /** Between parentheses. */
  lemma {:induction false} BareParses(toks: seq<Token>, pos: nat, c: Cond)
    requires TokensOk(toks) && CondFits(c) && !IsLeaf(c) && At(toks, pos, BareToks(c)) && toks[pos + |BareToks(c)|].RParen?
    ensures ParseOr(toks, pos) == OrTail(toks, pos + |BareToks(c)|, c)
    decreases c, 1
  {
    match c {
      case Or(_, _) => DisjunctionParses(toks, pos, c);
      case And(_, _) =>
        hide ParseAnd, OrTail, BareToks;
        AtBound(toks, pos, BareToks(c));
        ConjunctionParses(toks, pos, c);
        AndEnds(toks, pos + |BareToks(c)|, c);
      case Not(_) =>
        hide ParseNot, OrTail, BareToks;
        AtBound(toks, pos, BareToks(c));
        NegationParses(toks, pos, c);
        AndEnds(toks, pos + |BareToks(c)|, c);
    }
  }

  lemma {:induction false} FewSpellable(c: Cond, place: Place)
    requires CondFits(c)
    ensures AllSpellable(BareToks(c)) && AllSpellable(FewToks(c, place))
    decreases c
  {
    hide CondToks, KeyTok, Spellable, Opens;
    KeywordsSpellable();
    PunctuationSpellable();
    match c {
      case Or(l, r) => FewSpellable(l, Loose); FewSpellable(r, Factor);
      case And(l, r) => FewSpellable(l, Factor); FewSpellable(r, Term);
      case Not(x) => FewSpellable(x, Atom);
      case _ => CondSpellable(c);
    }
  }

  /** Printing with the fewest parentheses and parsing the text is the identity on trees. */
  lemma PrintFewThenParse(c: Cond)
    requires CondOk(c)
    ensures ParseFilter(PrintFew(c)) == Some(c)
  {
    hide BareToks, CondFits, Opens, TokensOk, Spell, Lex, ParseOr;
    var u := FewToks(c, Loose);
    assert u == BareToks(c);
    FewSpellable(c, Loose);
    LexSpell(Spaced(u));
    assert Tokens(Spaced(u)) == u;
    LexOk(PrintFew(c));
    var toks := u + [EOF];
    assert toks[0..0 + |u|] == u;
    LooseParses(toks, 0, c);
    OrEnds(toks, |u|, c);
  }

  lemma OrEnds(toks: seq<Token>, pos: nat, c: Cond)
    requires TokensOk(toks) && pos < |toks| && toks[pos].EOF?
    ensures OrTail(toks, pos, c) == Parsed(c, pos)
  {
  }

  /** What the text of these tokens parses to. */
  function ParseToks(toks: seq<Token>): Option<Cond> { ParseFilter(Spell(Spaced(toks))) }

  lemma FewParses(c: Cond)
    requires CondOk(c)
    ensures ParseToks(FewToks(c, Loose)) == Some(c)
  {
    hide FewToks, CondFits, Opens, ParseFilter, Spell;
    PrintFewThenParse(c);
  }

  lemma OrThenAnd(x: Cond, y: Cond, z: Cond)
    requires IsLeaf(x) && IsLeaf(y) && IsLeaf(z) && CondOk(x) && CondOk(y) && CondOk(z)
    ensures CondOk(Or(x, And(y, z)))
    ensures FewToks(Or(x, And(y, z)), Loose) == CondToks(x) + ([KeyTok(OR)] + (CondToks(y) + ([KeyTok(AND)] + CondToks(z))))
  {
    hide CondToks, KeyTok, LeftOk, OpensPlain, OperandOk, PathOk;
    LeafToks(x);
    LeafToks(y);
    LeafToks(z);
    assert CondOk(And(y, z));
    assert BareToks(And(y, z)) == CondToks(y) + ([KeyTok(AND)] + CondToks(z));
    assert FewToks(And(y, z), Factor) == BareToks(And(y, z));
    assert BareToks(Or(x, And(y, z))) == FewToks(x, Loose) + ([KeyTok(OR)] + FewToks(And(y, z), Factor));
  }

  lemma AndThenOr(x: Cond, y: Cond, z: Cond)
    requires IsLeaf(x) && IsLeaf(y) && IsLeaf(z) && CondOk(x) && CondOk(y) && CondOk(z)
    ensures CondOk(Or(And(x, y), z))
    ensures FewToks(Or(And(x, y), z), Loose) == (CondToks(x) + ([KeyTok(AND)] + CondToks(y))) + ([KeyTok(OR)] + CondToks(z))
  {
    hide CondToks, KeyTok, LeftOk, OpensPlain, OperandOk, PathOk;
    LeafToks(x);
    LeafToks(y);
    LeafToks(z);
    assert CondOk(And(x, y));
    assert BareToks(And(x, y)) == CondToks(x) + ([KeyTok(AND)] + CondToks(y));
    assert FewToks(And(x, y), Loose) == BareToks(And(x, y));
    assert BareToks(Or(And(x, y), z)) == FewToks(And(x, y), Loose) + ([KeyTok(OR)] + FewToks(z, Factor));
  }

  lemma AndWithNot(x: Cond, y: Cond)
    requires IsLeaf(x) && IsLeaf(y) && CondOk(x) && CondOk(y)
    ensures CondOk(And(Not(x), y))
    ensures FewToks(And(Not(x), y), Loose) == ([KeyTok(NOT)] + CondToks(x)) + ([KeyTok(AND)] + CondToks(y))
  {
    hide CondToks, KeyTok, LeftOk, OpensPlain, OperandOk, PathOk;
    LeafToks(x);
    LeafToks(y);
    assert CondOk(Not(x));
    assert BareToks(Not(x)) == [KeyTok(NOT)] + CondToks(x);
    assert FewToks(Not(x), Factor) == BareToks(Not(x));
    assert BareToks(And(Not(x), y)) == FewToks(Not(x), Factor) + ([KeyTok(AND)] + FewToks(y, Term));
  }

  lemma LeafToks(x: Cond)
    requires IsLeaf(x) && CondFits(x)
    ensures FewToks(x, Loose) == FewToks(x, Factor) == FewToks(x, Term) == FewToks(x, Atom) == CondToks(x)
  {
    hide CondToks;
  }

  /** Without any parentheses `x OR y AND z` is `x OR (y AND z)`, `x AND y OR z` is
      `(x AND y) OR z`, and `NOT x AND y` is `(NOT x) AND y`. */
  lemma AndBindsTighter(x: Cond, y: Cond, z: Cond)
    requires IsLeaf(x) && IsLeaf(y) && IsLeaf(z) && CondOk(x) && CondOk(y) && CondOk(z)
    ensures var a, b, c := CondToks(x), CondToks(y), CondToks(z);
            && ParseToks(a + ([KeyTok(OR)] + (b + ([KeyTok(AND)] + c)))) == Some(Or(x, And(y, z)))
            && ParseToks((a + ([KeyTok(AND)] + b)) + ([KeyTok(OR)] + c)) == Some(Or(And(x, y), z))
            && ParseToks(([KeyTok(NOT)] + a) + ([KeyTok(AND)] + b)) == Some(And(Not(x), y))
  {
    OrThenAnd(x, y, z);
    AndThenOr(x, y, z);
    AndWithNot(x, y);
    hide CondToks, CondFits, Opens, FewToks, KeyTok, ParseToks;
    FewParses(Or(x, And(y, z)));
    FewParses(Or(And(x, y), z));
    FewParses(And(Not(x), y));
  }
}
