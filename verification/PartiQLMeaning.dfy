/** The meaning of a compiled WHERE clause: for every nonempty list of
    conditions the printed filter evaluates, on every item, to the conjunction of
    the conditions if each IN list has 1 to 100 values, and is rejected otherwise. */
module PartiQLMeaning {
  import opened Values
  import opened Lexer
  import opened Parser
  import opened Evaluation
  import opened RoundTrip
  import opened PartiQL

  // ---- the tree the text stands for

  function OpOf(op: WhereOp): CmpOp {
    match op
    case WEq => EqOp
    case WNe => NeqOp
    case WBang => NeqOp
    case WLt => LtOp
    case WLe => LteOp
    case WGt => GtOp
    case WGe => GteOp
  }

  function Name(i: nat): Operand { NameOp(NameText(i)) }

  function Ref(s: Slot): Operand { ValOp(SlotText(s)) }

  function Refs(i: nat, n: nat, j: nat): (os: seq<Operand>)
    requires j <= n
    ensures |os| == n - j && forall k :: 0 <= k < |os| ==> os[k] == Ref(Nth(i, j + k))
    decreases n - j
  {
    if j == n then [] else [Ref(Nth(i, j))] + Refs(i, n, j + 1)
  }

  function Compiled(i: nat, w: Where): Cond {
    match w
    case Simple(_, op, _) => Cmp(Name(i), OpOf(op), Ref(Single(i)))
    case Range(_, _, _) => Between(Name(i), Ref(Low(i)), Ref(High(i)))
    case OneOf(_, vals) => In(Name(i), Refs(i, |vals|, 0))
  }

  /** left AND the conditions from the i-th on, grouped to the left. */
  function Conj(conds: seq<Where>, i: nat, left: Cond): Cond
    requires i <= |conds|
    decreases |conds| - i
  {
    if i == |conds| then left else Conj(conds, i + 1, And(left, Compiled(i, conds[i])))
  }

  predicate InOk(w: Where) { w.OneOf? ==> 1 <= |w.vals| <= MAX_IN }

  // ---- its tokens

  function NameRefTok(i: nat): Token { NameRef(NameText(i)) }

  function SlotTok(s: Slot): Token { ValRef(SlotText(s)) }

  function RestToks(i: nat, n: nat, j: nat): seq<Token>
    requires j <= n
    decreases n - j
  {
    if j == n then [] else [Comma] + ([SlotTok(Nth(i, j))] + RestToks(i, n, j + 1))
  }

  function InToks(i: nat, n: nat): seq<Token> {
    [LParen] + ((if n == 0 then [] else [SlotTok(Nth(i, 0))] + RestToks(i, n, 1)) + [RParen])
  }

  function PartToks(i: nat, w: Where): seq<Token> {
    match w
    case Simple(_, op, _) => [NameRefTok(i)] + ([OpTok(OpOf(op))] + [SlotTok(Single(i))])
    case Range(_, _, _) =>
      [NameRefTok(i)] + ([KeyTok(BETWEEN)] + ([SlotTok(Low(i))] + ([KeyTok(AND)] + [SlotTok(High(i))])))
    case OneOf(_, vals) => [NameRefTok(i)] + ([KeyTok(IN)] + InToks(i, |vals|))
  }

  /** AND and a part, for every condition from the i-th on. */
  function TailChain(conds: seq<Where>, i: nat): seq<Token>
    requires i <= |conds|
    decreases |conds| - i
  {
    if i == |conds| then [] else [KeyTok(AND)] + (PartToks(i, conds[i]) + TailChain(conds, i + 1))
  }

  function ChainToks(conds: seq<Where>): seq<Token>
    requires conds != []
  {
    PartToks(0, conds[0]) + TailChain(conds, 1)
  }

  // ---- the printed text has these tokens

  function RestPieces(i: nat, n: nat, j: nat): seq<Piece>
    requires j <= n
    decreases n - j
  {
    if j == n then []
    else [Piece(Comma, true)] + ([Piece(SlotTok(Nth(i, j)), false)] + RestPieces(i, n, j + 1))
  }

  function ListPieces(i: nat, n: nat): seq<Piece> {
    if n == 0 then [] else [Piece(SlotTok(Nth(i, 0)), false)] + RestPieces(i, n, 1)
  }

  function InPieces(i: nat, n: nat, spaced: bool): seq<Piece> {
    [Piece(LParen, false)] + (ListPieces(i, n) + [Piece(RParen, spaced)])
  }

  function PartPieces(i: nat, w: Where, spaced: bool): seq<Piece> {
    var name := Piece(NameRefTok(i), true);
    match w
    case Simple(_, op, _) => [name] + ([Piece(OpTok(OpOf(op)), true)] + [Piece(SlotTok(Single(i)), spaced)])
    case Range(_, _, _) =>
      [name] + ([Piece(KeyTok(BETWEEN), true)] + ([Piece(SlotTok(Low(i)), true)]
                + ([Piece(KeyTok(AND), true)] + [Piece(SlotTok(High(i)), spaced)])))
    case OneOf(_, vals) => [name] + ([Piece(KeyTok(IN), true)] + InPieces(i, |vals|, spaced))
  }

  function ChainPieces(conds: seq<Where>, i: nat): seq<Piece>
    requires i < |conds|
    decreases |conds| - i
  {
    if i + 1 == |conds| then PartPieces(i, conds[i], false)
    else PartPieces(i, conds[i], true) + ([Piece(KeyTok(AND), true)] + ChainPieces(conds, i + 1))
  }

  lemma InTextStep(i: nat, n: nat, j: nat)
    requires j < n
    ensures InText(i, n, j) == SlotText(Nth(i, j)) + (if j + 1 < n then ", " + InText(i, n, j + 1) else "")
  {
  }

  lemma SpellPair(i: nat, j: nat, more: seq<Piece>)
    ensures Spell([Piece(Comma, true)] + ([Piece(SlotTok(Nth(i, j)), false)] + more))
            == ", " + (SlotText(Nth(i, j)) + Spell(more))
  {
    hide SlotText, Spell;
    var p, q := Piece(Comma, true), Piece(SlotTok(Nth(i, j)), false);
    SpellCons(p, [q] + more);
    SpellCons(q, more);
    var rest := SlotText(Nth(i, j)) + Spell(more);
    assert "" + Spell(more) == Spell(more);
    assert "," + (" " + rest) == ", " + rest;
  }

  lemma {:induction false} SpellRest(i: nat, n: nat, j: nat)
    requires j < n
    ensures SlotText(Nth(i, j)) + Spell(RestPieces(i, n, j + 1)) == InText(i, n, j)
    decreases n - j
  {
    hide SlotText, Spell, InText;
    InTextStep(i, n, j);
    if j + 1 < n {
      SpellPair(i, j + 1, RestPieces(i, n, j + 2));
      SpellRest(i, n, j + 1);
    } else {
      SpellNone();
    }
  }

  lemma SpellNone()
    ensures Spell([]) == ""
  {
  }

  lemma SpellOne(p: Piece)
    ensures Spell([p]) == Text(p.token) + Gap(p.spaced)
  {
    assert Spell([p][1..]) == "";
    assert Gap(p.spaced) + "" == Gap(p.spaced);
  }

  lemma SpellList(i: nat, n: nat)
    ensures Spell(ListPieces(i, n)) == InText(i, n, 0)
  {
    hide SlotText, Spell, InText, RestPieces;
    if n == 0 {
      SpellNone();
      InTextNone(i);
    } else {
      var p := Piece(SlotTok(Nth(i, 0)), false);
      SpellCons(p, RestPieces(i, n, 1));
      assert "" + Spell(RestPieces(i, n, 1)) == Spell(RestPieces(i, n, 1));
      SpellRest(i, n, 0);
    }
  }

  lemma InTextNone(i: nat)
    ensures InText(i, 0, 0) == ""
  {
  }

  lemma SpellPart(i: nat, w: Where, spaced: bool)
    ensures Spell(PartPieces(i, w, spaced)) == PartText(i, w) + Gap(spaced)
  {
    match w {
      case Simple(_, op, _) => SpellSimple(i, w, spaced);
      case Range(_, _, _) => SpellRange(i, w, spaced);
      case OneOf(_, _) => SpellOneOf(i, w, spaced);
    }
  }

  lemma SpellCons(p: Piece, ps: seq<Piece>)
    ensures Spell([p] + ps) == Text(p.token) + (Gap(p.spaced) + Spell(ps))
  {
    assert ([p] + ps)[1..] == ps;
  }

  lemma SpellSimple(i: nat, w: Where, spaced: bool)
    requires w.Simple?
    ensures Spell(PartPieces(i, w, spaced)) == PartText(i, w) + Gap(spaced)
  {
    hide SlotText, NameText, Spell;
    var op, val := Piece(OpTok(OpOf(w.op)), true), Piece(SlotTok(Single(i)), spaced);
    SpellCons(Piece(NameRefTok(i), true), [op] + [val]);
    SpellCons(op, [val]);
    SpellOne(val);
    var n, o, v := NameText(i), OpText(w.op), SlotText(Single(i));
    assert Text(OpTok(OpOf(w.op))) == o;
    assert n + (" " + (o + (" " + (v + Gap(spaced))))) == n + " " + o + " " + v + Gap(spaced);
  }

  lemma SpellRange(i: nat, w: Where, spaced: bool)
    requires w.Range?
    ensures Spell(PartPieces(i, w, spaced)) == PartText(i, w) + Gap(spaced)
  {
    hide SlotText, NameText, Spell;
    var between, and := Piece(KeyTok(BETWEEN), true), Piece(KeyTok(AND), true);
    var lo, hi := Piece(SlotTok(Low(i)), true), Piece(SlotTok(High(i)), spaced);
    SpellCons(Piece(NameRefTok(i), true), [between] + ([lo] + ([and] + [hi])));
    SpellCons(between, [lo] + ([and] + [hi]));
    SpellCons(lo, [and] + [hi]);
    SpellCons(and, [hi]);
    SpellOne(hi);
    RangeText(NameText(i), SlotText(Low(i)), SlotText(High(i)), Gap(spaced));
  }

  lemma RangeText(n: string, lo: string, hi: string, g: string)
    ensures n + (" " + ("BETWEEN" + (" " + (lo + (" " + ("AND" + (" " + (hi + g))))))))
            == n + " BETWEEN " + lo + " AND " + hi + g
  {
    assert " BETWEEN " == " " + ("BETWEEN" + " ") && " AND " == " " + ("AND" + " ");
  }

  lemma SpellOneOf(i: nat, w: Where, spaced: bool)
    requires w.OneOf?
    ensures Spell(PartPieces(i, w, spaced)) == PartText(i, w) + Gap(spaced)
  {
    hide SlotText, NameText, Spell, ListPieces, InText;
    var kw, open, close := Piece(KeyTok(IN), true), Piece(LParen, false), Piece(RParen, spaced);
    var list := ListPieces(i, |w.vals|);
    SpellCons(Piece(NameRefTok(i), true), [kw] + ([open] + (list + [close])));
    SpellCons(kw, [open] + (list + [close]));
    SpellCons(open, list + [close]);
    SpellConcat(list, [close]);
    SpellOne(close);
    SpellList(i, |w.vals|);
    OneOfText(NameText(i), InText(i, |w.vals|, 0), Gap(spaced));
  }

  lemma OneOfText(n: string, list: string, g: string)
    ensures n + (" " + ("IN" + (" " + ("(" + ("" + (list + (")" + g))))))) == n + " IN (" + list + ")" + g
  {
    assert " IN (" == " " + (("IN" + " ") + ("(" + ""));
  }

  lemma {:induction false} SpellChain(conds: seq<Where>, i: nat)
    requires i < |conds|
    ensures Spell(ChainPieces(conds, i)) == FilterText(conds, i)
    decreases |conds| - i
  {
    hide PartPieces, PartText, Spell;
    if i + 1 == |conds| {
      SpellPart(i, conds[i], false);
      assert PartText(i, conds[i]) + "" == PartText(i, conds[i]);
    } else {
      var kw := Piece(KeyTok(AND), true);
      var rest := ChainPieces(conds, i + 1);
      SpellConcat(PartPieces(i, conds[i], true), [kw] + rest);
      SpellPart(i, conds[i], true);
      SpellCons(kw, rest);
      SpellChain(conds, i + 1);
      AndText(PartText(i, conds[i]), FilterText(conds, i + 1));
    }
  }

  lemma AndText(part: string, rest: string)
    ensures (part + " ") + ("AND" + (" " + rest)) == part + (" AND " + rest)
  {
    assert " AND " == " " + ("AND" + " ");
  }

  /** A run of pieces that lexes to toks. */
  predicate Fits(ps: seq<Piece>, toks: seq<Token>) {
    Separated(ps) && Tokens(ps) == toks
  }

  lemma FitsCons(p: Piece, ps: seq<Piece>, toks: seq<Token>)
    requires Fits(ps, toks) && Spellable(p.token) && (ps != [] ==> Joint(p, ps[0]))
    ensures Fits([p] + ps, [p.token] + toks)
  {
    hide Separated, Spellable;
    SeparatedCons(p, ps);
    assert ([p] + ps)[1..] == ps;
  }

  lemma FitsOne(p: Piece)
    requires Spellable(p.token)
    ensures Fits([p], [p.token])
  {
  }

  lemma {:induction false} RestFits(i: nat, n: nat, j: nat, close: Piece)
    requires j <= n && close.token == RParen
    ensures Fits(RestPieces(i, n, j) + [close], RestToks(i, n, j) + [RParen])
    decreases n - j
  {
    hide SlotText, Fits, Spellable;
    PunctuationSpellable();
    if j == n {
      FitsOne(close);
      assert [] + [close] == [close] && [] + [RParen] == [RParen];
    } else {
      var v := Piece(SlotTok(Nth(i, j)), false);
      var rest := RestPieces(i, n, j + 1) + [close];
      PlaceholdersSpellable(i, Nth(i, j));
      RestFits(i, n, j + 1, close);
      FitsCons(v, rest, RestToks(i, n, j + 1) + [RParen]);
      FitsCons(Piece(Comma, true), [v] + rest, [v.token] + (RestToks(i, n, j + 1) + [RParen]));
      assert RestPieces(i, n, j) + [close] == [Piece(Comma, true)] + ([v] + rest);
      assert RestToks(i, n, j) + [RParen] == [Comma] + ([v.token] + (RestToks(i, n, j + 1) + [RParen]));
    }
  }

  lemma InFits(i: nat, n: nat, spaced: bool)
    ensures Fits(InPieces(i, n, spaced), InToks(i, n))
  {
    hide SlotText, Fits, Spellable, RestPieces, RestToks;
    var open, close := Piece(LParen, false), Piece(RParen, spaced);
    PunctuationSpellable();
    if n == 0 {
      FitsOne(close);
      FitsCons(open, [close], [RParen]);
      assert [] + [close] == [close] && [] + [RParen] == [RParen];
    } else {
      var v := Piece(SlotTok(Nth(i, 0)), false);
      var rest, restToks := RestPieces(i, n, 1) + [close], RestToks(i, n, 1) + [RParen];
      PlaceholdersSpellable(i, Nth(i, 0));
      RestFits(i, n, 1, close);
      RestStarts(i, n, 1);
      FitsCons(v, rest, restToks);
      assert ([v] + RestPieces(i, n, 1)) + [close] == [v] + rest;
      assert ([v.token] + RestToks(i, n, 1)) + [RParen] == [v.token] + restToks;
      FitsCons(open, [v] + rest, [v.token] + restToks);
    }
  }

  lemma RestStarts(i: nat, n: nat, j: nat)
    requires j <= n
    ensures RestPieces(i, n, j) == [] || RestPieces(i, n, j)[0].token == Comma
  {
  }

  lemma SeparatedConcat(a: seq<Piece>, b: seq<Piece>)
    requires Separated(a) && Separated(b) && a != [] && a[|a| - 1].spaced
    ensures Separated(a + b)
  {
    hide Spellable, Joint;
    var c := a + b;
    forall i | 0 <= i < |c| - 1
      ensures Joint(c[i], c[i + 1])
    {
      if i >= |a| {
        assert Joint(b[i - |a|], b[i - |a| + 1]);
      } else if i + 1 < |a| {
        assert Joint(a[i], a[i + 1]);
      } else {
        JointSpaced(c[i], c[i + 1]);
      }
    }
  }

  /** Two runs with a blank between them. */
  lemma FitsConcat(a: seq<Piece>, s: seq<Token>, b: seq<Piece>, t: seq<Token>)
    requires Fits(a, s) && Fits(b, t) && a != [] && a[|a| - 1].spaced
    ensures Fits(a + b, s + t)
  {
    hide Separated;
    SeparatedConcat(a, b);
    assert Tokens(a + b) == s + t;
  }

  lemma JointSpaced(p: Piece, q: Piece)
    requires p.spaced
    ensures Joint(p, q)
  {
  }

  lemma PartFits(i: nat, w: Where, spaced: bool)
    ensures Fits(PartPieces(i, w, spaced), PartToks(i, w))
    ensures var ps := PartPieces(i, w, spaced); ps != [] && ps[|ps| - 1].spaced == spaced
  {
    hide SlotText, NameText, Fits, Spellable, ListPieces, InToks, OpTok, KeyTok;
    var name := Piece(NameRefTok(i), true);
    KeywordsSpellable();
    PunctuationSpellable();
    match w {
      case Simple(_, op, _) =>
        var o, v := Piece(OpTok(OpOf(op)), true), Piece(SlotTok(Single(i)), spaced);
        PlaceholdersSpellable(i, Single(i));
        FitsOne(v);
        FitsCons(o, [v], [v.token]);
        FitsCons(name, [o] + [v], [o.token] + [v.token]);
      case Range(_, _, _) =>
        var k, a := Piece(KeyTok(BETWEEN), true), Piece(KeyTok(AND), true);
        var lo, hi := Piece(SlotTok(Low(i)), true), Piece(SlotTok(High(i)), spaced);
        PlaceholdersSpellable(i, Low(i));
        PlaceholdersSpellable(i, High(i));
        FitsOne(hi);
        FitsCons(a, [hi], [hi.token]);
        FitsCons(lo, [a] + [hi], [a.token] + [hi.token]);
        FitsCons(k, [lo] + ([a] + [hi]), [lo.token] + ([a.token] + [hi.token]));
        FitsCons(name, [k] + ([lo] + ([a] + [hi])), [k.token] + ([lo.token] + ([a.token] + [hi.token])));
      case OneOf(_, vals) =>
        var k := Piece(KeyTok(IN), true);
        PlaceholdersSpellable(i, Single(i));
        InFits(i, |vals|, spaced);
        FitsCons(k, InPieces(i, |vals|, spaced), InToks(i, |vals|));
        FitsCons(name, [k] + InPieces(i, |vals|, spaced), [k.token] + InToks(i, |vals|));
    }
  }

  lemma {:induction false} ChainFits(conds: seq<Where>, i: nat)
    requires i < |conds|
    ensures Fits(ChainPieces(conds, i), PartToks(i, conds[i]) + TailChain(conds, i + 1))
    decreases |conds| - i
  {
    hide PartPieces, PartToks, Fits, KeyTok, Spellable;
    PartFits(i, conds[i], i + 1 < |conds|);
    if i + 1 == |conds| {
      assert PartToks(i, conds[i]) + [] == PartToks(i, conds[i]);
    } else {
      var kw := Piece(KeyTok(AND), true);
      KeywordsSpellable();
      ChainFits(conds, i + 1);
      var rest, restToks := ChainPieces(conds, i + 1), PartToks(i + 1, conds[i + 1]) + TailChain(conds, i + 2);
      FitsCons(kw, rest, restToks);
      FitsConcat(PartPieces(i, conds[i], true), PartToks(i, conds[i]), [kw] + rest, [kw.token] + restToks);
    }
  }

  lemma FilterTokens(conds: seq<Where>)
    requires conds != []
    ensures Lex(FilterText(conds, 0)) == Some(ChainToks(conds) + [EOF])
  {
    hide Lex, Spell, ChainPieces, PartToks, TailChain, FilterText, Separated;
    SpellChain(conds, 0);
    ChainFits(conds, 0);
    LexSpell(ChainPieces(conds, 0));
  }

  // ---- and they parse to the conjunction

  lemma {:induction false} RefsToks(i: nat, n: nat, j: nat)
    requires j <= n
    ensures forall o :: o in Refs(i, n, j) ==> OperandOk(o)
    ensures ListToks(Refs(i, n, j)) == RestToks(i, n, j)
    decreases n - j
  {
    hide SlotText;
    if j < n {
      PlaceholdersSpellable(i, Nth(i, j));
      RefsToks(i, n, j + 1);
      assert Refs(i, n, j)[1..] == Refs(i, n, j + 1);
    }
  }

  lemma CompiledToks(i: nat, w: Where)
    requires InOk(w)
    ensures CondOk(Compiled(i, w)) && CondToks(Compiled(i, w)) == PartToks(i, w)
  {
    hide SlotText, NameText, Upper;
    PlaceholdersSpellable(i, Single(i));
    PlaceholdersSpellable(i, Low(i));
    PlaceholdersSpellable(i, High(i));
    if w.OneOf? {
      RefsToks(i, |w.vals|, 0);
      RefsToks(i, |w.vals|, 1);
      assert Refs(i, |w.vals|, 0)[1..] == Refs(i, |w.vals|, 1);
    }
  }

  lemma PartParses(toks: seq<Token>, pos: nat, i: nat, w: Where)
    requires TokensOk(toks) && InOk(w)
    requires At(toks, pos, PartToks(i, w)) && Stops(toks[pos + |PartToks(i, w)|])
    ensures ParseNot(toks, pos) == Parsed(Compiled(i, w), pos + |PartToks(i, w)|)
  {
    hide TokensOk, ParsePrimary, CondToks, CondFits, Opens, PartToks, Compiled, At;
    AtBound(toks, pos, PartToks(i, w));
    CompiledToks(i, w);
    CondParses(toks, pos, Compiled(i, w));
    PlainNot(toks, pos, Compiled(i, w), pos + |PartToks(i, w)|);
  }

  lemma TailChainStarts(conds: seq<Where>, i: nat)
    requires i <= |conds|
    ensures i == |conds| ==> TailChain(conds, i) == []
    ensures i < |conds| ==> TailChain(conds, i) != [] && TailChain(conds, i)[0] == KeyTok(AND)
  {
  }

  /** Where AND, the i-th part and what follows it stand. */
  lemma ChainLayout(toks: seq<Token>, pos: nat, conds: seq<Where>, i: nat)
    requires i < |conds| && At(toks, pos, TailChain(conds, i))
    requires toks[pos + |TailChain(conds, i)|].EOF?
    ensures var part := PartToks(i, conds[i]);
            && pos + 1 + |part| < |toks|
            && toks[pos] == KeyTok(AND)
            && At(toks, pos + 1, part)
            && Stops(toks[pos + 1 + |part|])
            && At(toks, pos + 1 + |part|, TailChain(conds, i + 1))
            && |TailChain(conds, i)| == 1 + |part| + |TailChain(conds, i + 1)|
  {
    hide PartToks, At;
    var part, rest := PartToks(i, conds[i]), TailChain(conds, i + 1);
    AtBound(toks, pos, TailChain(conds, i));
    AtSplit(toks, pos, [KeyTok(AND)], part + rest);
    AtSplit(toks, pos + 1, part, rest);
    TailChainStarts(conds, i + 1);
    if i + 1 < |conds| {
      AtOne(toks, pos + 1 + |part|, rest, 0);
    }
  }

  lemma AndStep(toks: seq<Token>, pos: nat, left: Cond, right: Cond, next: nat)
    requires TokensOk(toks) && pos + 1 < |toks| && IsKeyword(toks[pos], AND)
    requires ParseNot(toks, pos + 1) == Parsed(right, next)
    ensures AndTail(toks, pos, left) == AndTail(toks, next, And(left, right))
  {
  }

  lemma AndStop(toks: seq<Token>, pos: nat, left: Cond)
    requires TokensOk(toks) && pos < |toks| && toks[pos].EOF?
    ensures AndTail(toks, pos, left) == Parsed(left, pos)
  {
  }

  lemma {:induction false} ChainParses(toks: seq<Token>, pos: nat, conds: seq<Where>, i: nat, left: Cond)
    requires TokensOk(toks) && i <= |conds|
    requires forall k :: i <= k < |conds| ==> InOk(conds[k])
    requires At(toks, pos, TailChain(conds, i)) && toks[pos + |TailChain(conds, i)|].EOF?
    ensures AndTail(toks, pos, left) == Parsed(Conj(conds, i, left), pos + |TailChain(conds, i)|)
    decreases |conds| - i
  {
    hide TokensOk, PartToks, TailChain, At, AndTail, ParseNot, Compiled, KeyTok, Upper, InOk;
    AtBound(toks, pos, TailChain(conds, i));
    TailChainStarts(conds, i);
    if i == |conds| {
      AndStop(toks, pos, left);
    } else {
      var part := PartToks(i, conds[i]);
      ChainLayout(toks, pos, conds, i);
      UpperKeywords();
      PartParses(toks, pos + 1, i, conds[i]);
      AndStep(toks, pos, left, Compiled(i, conds[i]), pos + 1 + |part|);
      ChainParses(toks, pos + 1 + |part|, conds, i + 1, And(left, Compiled(i, conds[i])));
    }
  }

  // ---- an empty or oversized IN list is a syntax error

  lemma {:induction false} ListOverflows(toks: seq<Token>, pos: nat, i: nat, n: nat, j: nat, done: seq<Operand>)
    requires TokensOk(toks) && j <= n && |done| <= MAX_IN < |done| + (n - j)
    requires At(toks, pos, RestToks(i, n, j)) && toks[pos + |RestToks(i, n, j)|].RParen?
    ensures InTail(toks, pos, done).Fail?
    decreases n - j
  {
    hide SlotText, At;
    var v, rest := SlotTok(Nth(i, j)), RestToks(i, n, j + 1);
    AtBound(toks, pos, RestToks(i, n, j));
    AtSplit(toks, pos, [Comma], [v] + rest);
    AtSplit(toks, pos + 1, [v], rest);
    assert ParseOperand(toks, pos + 1) == Parsed(Ref(Nth(i, j)), pos + 2);
    if |done| < MAX_IN {
      ListOverflows(toks, pos + 2, i, n, j + 1, done + [Ref(Nth(i, j))]);
    }
  }

  lemma BadListFails(toks: seq<Token>, pos: nat, i: nat, n: nat, left: Operand)
    requires TokensOk(toks) && (n == 0 || n > MAX_IN) && At(toks, pos, InToks(i, n))
    ensures ParseIn(toks, pos, left).Fail?
  {
    hide SlotText, At, RestToks, InTail;
    AtBound(toks, pos, InToks(i, n));
    if n == 0 {
      assert InToks(i, n) == [LParen] + [RParen];
      AtSplit(toks, pos, [LParen], [RParen]);
      AtOne(toks, pos + 1, [RParen], 0);
    } else {
      var v, rest := SlotTok(Nth(i, 0)), RestToks(i, n, 1);
      assert InToks(i, n) == [LParen] + ([v] + (rest + [RParen]));
      AtSplit(toks, pos, [LParen], [v] + (rest + [RParen]));
      AtSplit(toks, pos + 1, [v], rest + [RParen]);
      AtSplit(toks, pos + 2, rest, [RParen]);
      AtOne(toks, pos + 2 + |rest|, [RParen], 0);
      assert ParseOperand(toks, pos + 1) == Parsed(Ref(Nth(i, 0)), pos + 2);
      ListOverflows(toks, pos + 2, i, n, 1, [Ref(Nth(i, 0))]);
    }
  }

  lemma BadPartFails(toks: seq<Token>, pos: nat, i: nat, w: Where)
    requires TokensOk(toks) && !InOk(w) && At(toks, pos, PartToks(i, w))
    ensures ParseNot(toks, pos).Fail?
  {
    hide NameText, At, InToks, ParseIn, Upper;
    var list := InToks(i, |w.vals|);
    AtBound(toks, pos, PartToks(i, w));
    AtSplit(toks, pos, [NameRefTok(i)], [KeyTok(IN)] + list);
    AtSplit(toks, pos + 1, [KeyTok(IN)], list);
    UpperKeywords();
    PlaceholdersSpellable(i, Single(i));
    TailStop(toks, pos + 1, [Attr(NameText(i))]);
    assert ParseAttrPath(toks, pos) == Parsed(Name(i), pos + 1);
    BadListFails(toks, pos + 2, i, |w.vals|, Name(i));
  }

  lemma AndFails(toks: seq<Token>, pos: nat, left: Cond)
    requires TokensOk(toks) && pos + 1 < |toks| && IsKeyword(toks[pos], AND) && ParseNot(toks, pos + 1).Fail?
    ensures AndTail(toks, pos, left).Fail?
  {
  }

  lemma {:induction false} ChainFails(toks: seq<Token>, pos: nat, conds: seq<Where>, i: nat, left: Cond)
    requires TokensOk(toks) && i <= |conds|
    requires exists k :: i <= k < |conds| && !InOk(conds[k])
    requires At(toks, pos, TailChain(conds, i)) && toks[pos + |TailChain(conds, i)|].EOF?
    ensures AndTail(toks, pos, left).Fail?
    decreases |conds| - i
  {
    hide TokensOk, PartToks, TailChain, At, AndTail, ParseNot, Compiled, KeyTok, Upper, InOk;
    AtBound(toks, pos, TailChain(conds, i));
    var part := PartToks(i, conds[i]);
    ChainLayout(toks, pos, conds, i);
    UpperKeywords();
    if !InOk(conds[i]) {
      BadPartFails(toks, pos + 1, i, conds[i]);
      AndFails(toks, pos, left);
    } else {
      PartParses(toks, pos + 1, i, conds[i]);
      AndStep(toks, pos, left, Compiled(i, conds[i]), pos + 1 + |part|);
      ChainFails(toks, pos + 1 + |part|, conds, i + 1, And(left, Compiled(i, conds[i])));
    }
  }

  predicate AllInOk(conds: seq<Where>) {
    forall k :: 0 <= k < |conds| ==> InOk(conds[k])
  }

  /** What the printed filter parses to. */
  lemma FilterParses(conds: seq<Where>)
    requires conds != []
    ensures AllInOk(conds) ==>
              ParseFilter(FilterText(conds, 0)) == Some(Conj(conds, 1, Compiled(0, conds[0])))
    ensures !AllInOk(conds) ==> ParseFilter(FilterText(conds, 0)) == None
  {
    hide Lex, PartToks, TailChain, FilterText, Compiled, Conj, At, ParseNot, AndTail, TokensOk, KeyTok, InOk;
    FilterTokens(conds);
    LexOk(FilterText(conds, 0));
    var part, tail := PartToks(0, conds[0]), TailChain(conds, 1);
    var toks := ChainToks(conds) + [EOF];
    AtStart(ChainToks(conds));
    AtSplit(toks, 0, part, tail);
    AtBound(toks, 0, part);
    TailChainStarts(conds, 1);
    if |conds| > 1 {
      AtOne(toks, |part|, tail, 0);
    }
    StopsAnd();
    if InOk(conds[0]) {
      PartParses(toks, 0, 0, conds[0]);
      if AllInOk(conds) {
        ChainParses(toks, |part|, conds, 1, Compiled(0, conds[0]));
        OrEnds(toks, 0, Conj(conds, 1, Compiled(0, conds[0])), |part| + |tail|);
      } else {
        ChainFails(toks, |part|, conds, 1, Compiled(0, conds[0]));
        OrFails(toks, 0);
      }
    } else {
      BadPartFails(toks, 0, 0, conds[0]);
      OrFails(toks, 0);
    }
  }

  lemma OrFails(toks: seq<Token>, pos: nat)
    requires TokensOk(toks) && pos < |toks| && ParseAnd(toks, pos).Fail?
    ensures ParseOr(toks, pos).Fail?
  {
  }

  lemma StopsAnd()
    ensures Stops(KeyTok(AND)) && Stops(EOF)
  {
  }

  lemma AtStart(u: seq<Token>)
    ensures At(u + [EOF], 0, u)
  {
    assert (u + [EOF])[0..|u|] == u;
  }

  lemma OrEnds(toks: seq<Token>, pos: nat, c: Cond, next: nat)
    requires TokensOk(toks) && pos < |toks| && ParseAnd(toks, pos) == Parsed(c, next) && toks[next].EOF?
    ensures ParseOr(toks, pos) == Parsed(c, next)
  {
  }

  // ---- and evaluates to the conditions

  function BindingsOf(conds: seq<Where>): Bindings {
    Bindings(NamesOf(conds, |conds|), ValuesOf(conds, |conds|))
  }

  lemma RefResolves(lib: Lib, conds: seq<Where>, item: Item, s: Slot)
    requires s.i < |conds| && UsesSlot(conds[s.i], s)
    ensures Resolve(lib, BindingsOf(conds), item, Ref(s)) == Ok(Some(SlotValue(conds[s.i], s)))
  {
    ValueBound(conds, |conds|, s);
  }

  lemma NameResolves(lib: Lib, conds: seq<Where>, item: Item, i: nat)
    requires i < |conds|
    ensures Resolve(lib, BindingsOf(conds), item, Name(i)) == Ok(Lookup(item, conds[i].attr))
  {
    NameBound(conds, |conds|, i);
  }

  function Somes(vals: seq<Value>, j: nat): seq<Option<Value>>
    requires j <= |vals|
    decreases |vals| - j
  {
    if j == |vals| then [] else [Some(vals[j])] + Somes(vals, j + 1)
  }

  lemma {:induction false} InSomes(v: Option<Value>, vals: seq<Value>, j: nat)
    requires j <= |vals|
    ensures v in Somes(vals, j) <==> v.Some? && v.value in vals[j..]
    decreases |vals| - j
  {
    if j < |vals| {
      assert vals[j..] == [vals[j]] + vals[j + 1..];
      InSomes(v, vals, j + 1);
    }
  }

  lemma RefsStep(i: nat, n: nat, j: nat)
    requires j < n
    ensures Refs(i, n, j) != [] && Refs(i, n, j)[0] == Ref(Nth(i, j)) && Refs(i, n, j)[1..] == Refs(i, n, j + 1)
  {
  }

  lemma {:induction false} RefsResolve(lib: Lib, conds: seq<Where>, item: Item, i: nat, j: nat)
    requires i < |conds| && conds[i].OneOf? && j <= |conds[i].vals|
    ensures ResolveAll(lib, BindingsOf(conds), item, Refs(i, |conds[i].vals|, j)) == Ok(Somes(conds[i].vals, j))
    decreases |conds[i].vals| - j
  {
    hide Resolve, BindingsOf, Refs, Ref;
    var n := |conds[i].vals|;
    if j < n {
      RefResolves(lib, conds, item, Nth(i, j));
      RefsResolve(lib, conds, item, i, j + 1);
      RefsStep(i, n, j);
    }
  }

  lemma PartEvaluates(lib: Lib, conds: seq<Where>, item: Item, i: nat)
    requires i < |conds|
    ensures Eval(lib, BindingsOf(conds), item, Compiled(i, conds[i])) == Ok(Holds(lib, conds[i], item))
  {
    hide Resolve, BindingsOf, Ref, Name, CompareValues, Refs;
    var w, v := conds[i], Lookup(item, conds[i].attr);
    NameResolves(lib, conds, item, i);
    match w {
      case Simple(_, op, _) =>
        RefResolves(lib, conds, item, Single(i));
        AbsentIncomparable(lib, v, w.val);
      case Range(_, _, _) =>
        RefResolves(lib, conds, item, Low(i));
        RefResolves(lib, conds, item, High(i));
        AbsentIncomparable(lib, v, w.lo);
      case OneOf(_, vals) =>
        RefsResolve(lib, conds, item, i, 0);
        InSomes(v, vals, 0);
        assert vals[0..] == vals;
    }
  }

  lemma AbsentIncomparable(lib: Lib, v: Option<Value>, x: Value)
    ensures v.None? ==> CompareValues(lib, v, Some(x)).None?
  {
  }

  lemma {:induction false} ConjEvaluates(lib: Lib, conds: seq<Where>, item: Item, i: nat, left: Cond, x: bool)
    requires i <= |conds| && Eval(lib, BindingsOf(conds), item, left) == Ok(x)
    ensures Eval(lib, BindingsOf(conds), item, Conj(conds, i, left))
            == Ok(x && forall k :: i <= k < |conds| ==> Holds(lib, conds[k], item))
    decreases |conds| - i
  {
    hide Holds, Compiled, BindingsOf;
    if i < |conds| {
      PartEvaluates(lib, conds, item, i);
      ConjEvaluates(lib, conds, item, i + 1, And(left, Compiled(i, conds[i])), x && Holds(lib, conds[i], item));
    }
  }

  // ---- every placeholder in the text is bound

  predicate AllBound(toks: seq<Token>, b: Bindings) {
    forall t :: t in toks ==> TokenBound(t, b)
  }

  lemma NameTokBound(conds: seq<Where>, i: nat)
    requires i < |conds|
    ensures TokenBound(NameRefTok(i), BindingsOf(conds))
  {
    NameBound(conds, |conds|, i);
  }

  lemma SlotTokBound(conds: seq<Where>, s: Slot)
    requires s.i < |conds| && UsesSlot(conds[s.i], s)
    ensures TokenBound(SlotTok(s), BindingsOf(conds))
  {
    ValueBound(conds, |conds|, s);
  }

  lemma {:induction false} RestBound(conds: seq<Where>, i: nat, j: nat)
    requires i < |conds| && conds[i].OneOf? && j <= |conds[i].vals|
    ensures AllBound(RestToks(i, |conds[i].vals|, j), BindingsOf(conds))
    decreases |conds[i].vals| - j
  {
    hide SlotTok, BindingsOf;
    if j < |conds[i].vals| {
      SlotTokBound(conds, Nth(i, j));
      RestBound(conds, i, j + 1);
    }
  }

  lemma PartBound(conds: seq<Where>, i: nat)
    requires i < |conds|
    ensures AllBound(PartToks(i, conds[i]), BindingsOf(conds))
  {
    hide SlotTok, NameRefTok, BindingsOf;
    NameTokBound(conds, i);
    match conds[i] {
      case Simple(_, _, _) => SlotTokBound(conds, Single(i));
      case Range(_, _, _) => SlotTokBound(conds, Low(i)); SlotTokBound(conds, High(i));
      case OneOf(_, vals) =>
        if |vals| > 0 {
          SlotTokBound(conds, Nth(i, 0));
          RestBound(conds, i, 1);
        }
    }
  }

  lemma {:induction false} ChainBound(conds: seq<Where>, i: nat)
    requires i <= |conds|
    ensures AllBound(TailChain(conds, i), BindingsOf(conds))
    decreases |conds| - i
  {
    hide PartToks, BindingsOf;
    if i < |conds| {
      PartBound(conds, i);
      ChainBound(conds, i + 1);
    }
  }

  lemma FilterRefsBound(conds: seq<Where>)
    requires conds != []
    ensures RefsBound(ChainToks(conds) + [EOF], BindingsOf(conds))
  {
    hide PartToks, TailChain, BindingsOf;
    PartBound(conds, 0);
    ChainBound(conds, 1);
    var toks := ChainToks(conds) + [EOF];
    forall i | 0 <= i < |toks|
      ensures TokenBound(toks[i], BindingsOf(conds))
    {
      assert toks[i] in PartToks(0, conds[0]) || toks[i] in TailChain(conds, 1) || toks[i] == EOF;
    }
  }

  /** Compiling a WHERE clause preserves its meaning, on every item; the one
      way it fails is an IN list that is empty or longer than 100. */
  lemma CompilePreservesMeaning(lib: Lib, conds: seq<Where>, item: Item)
    requires conds != []
    ensures EvalFilter(lib, FilterText(conds, 0), BindingsOf(conds), item)
            == if AllInOk(conds) then Ok(AllHold(lib, conds, item)) else Error
  {
    hide Lex, ParseFilter, FilterText, ChainToks, BindingsOf, Conj, Compiled, Holds, InOk;
    FilterTokens(conds);
    FilterParses(conds);
    FilterRefsBound(conds);
    PartEvaluates(lib, conds, item, 0);
    ConjEvaluates(lib, conds, item, 1, Compiled(0, conds[0]), Holds(lib, conds[0], item));
  }
}
