/** The grammar of filter expressions as a relation between texts, token lists and trees,
    which says nothing of scanning or parsing. The parser accepts exactly the texts that have
    a derivation, and the tree it gives is the derived one, so that no text has two. */
module Grammar {
  import opened Values
  import opened Lexer
  import opened Parser
  import opened RoundTrip

  // ---- texts and tokens

  predicate Wordy(c: char) { 'a' <= c <= 'z' || 'A' <= c <= 'Z' || '0' <= c <= '9' || c == '_' }

  predicate AllWordy(s: string) { forall i :: 0 <= i < |s| ==> Wordy(s[i]) }

  /** s is how the token is written. */
  predicate Writes(t: Token, s: string) {
    match t
    case EOF => false
    case Ident(x) => s == x && s != "" && AllWordy(s) && !('0' <= s[0] <= '9')
    case NameRef(x) => s == x && |s| > 1 && s[0] == '#' && AllWordy(s[1..])
    case ValRef(x) => s == x && |s| > 1 && s[0] == ':' && AllWordy(s[1..])
    case ListIdx(x) => s == "[" + x + "]" && x != "" && forall i :: 0 <= i < |x| ==> '0' <= x[i] <= '9'
    case LParen => s == "("
    case RParen => s == ")"
    case Comma => s == ","
    case Dot => s == "."
    case Eq => s == "="
    case Neq => s == "<>"
    case Lt => s == "<"
    case Lte => s == "<="
    case Gt => s == ">"
    case Gte => s == ">="
  }

  /** The token would go on with c. */
  predicate Runs(t: Token, c: char) {
    match t
    case Ident(_) => Wordy(c)
    case NameRef(_) => Wordy(c)
    case ValRef(_) => Wordy(c)
    case Lt => c == '>' || c == '='
    case Gt => c == '='
    case _ => false
  }

  /** The text is the tokens one after the other, white space between them as one likes,
      and no token could have been longer. */
  predicate Scans(s: string, toks: seq<Token>)
    decreases |s|
  {
    if s == [] then toks == [EOF]
    else if s[0] in [' ', '\t', '\n', '\r'] then Scans(s[1..], toks)
    else
      && toks != []
      && exists n :: 0 < n <= |s| && Begins(s, toks[0], n) && Scans(s[n..], toks[1..])
  }

  predicate Begins(s: string, t: Token, n: nat)
    requires n <= |s|
  {
    Writes(t, s[..n]) && (n < |s| ==> !Runs(t, s[n]))
  }

  lemma SameLetters()
    ensures forall c :: Wordy(c) <==> IsWord(c)
  {
  }

  lemma WrittenText(t: Token, s: string)
    ensures Writes(t, s) <==> Spellable(t) && s == Text(t)
    ensures forall c :: Runs(t, c) <==> !Closes(t, c)
  {
    SameLetters();
  }

  lemma {:induction false} ScansIff(s: string, toks: seq<Token>)
    ensures Scans(s, toks) <==> Lex(s) == Some(toks)
    decreases |s|
  {
    hide LexHead, Begins;
    if s == [] {
    } else if s[0] in [' ', '\t', '\n', '\r'] {
      SpaceHead(s);
      ScansIff(s[1..], toks);
    } else {
      if Scans(s, toks) {
        var n :| 0 < n <= |s| && Begins(s, toks[0], n) && Scans(s[n..], toks[1..]);
        ScansIff(s[n..], toks[1..]);
        TokenHead(s, toks[0], n);
        assert [toks[0]] + toks[1..] == toks;
      }
      if Lex(s) == Some(toks) {
        SpaceHead(s);
        HeadToken(s);
        var n := LexHead(s).length;
        assert toks[1..] == Lex(s[n..]).value;
        ScansIff(s[n..], toks[1..]);
        assert Begins(s, toks[0], n);
      }
    }
  }

  lemma SpaceHead(s: string)
    requires s != []
    ensures LexHead(s).Space? <==> s[0] in [' ', '\t', '\n', '\r']
  {
  }

  lemma TokenHead(s: string, t: Token, n: nat)
    requires s != [] && n <= |s| && Begins(s, t, n)
    ensures LexHead(s) == Tok(t, n)
  {
    hide LexHead;
    WrittenText(t, s[..n]);
    assert s == Text(t) + s[n..];
    HeadOfText(t, s[n..]);
  }

  /** A token is read off the text it begins. */
  lemma HeadToken(s: string)
    requires s != [] && LexHead(s).Tok?
    ensures var h := LexHead(s); Begins(s, h.token, h.length)
  {
    WordEnds(s);
    WordEnds(s[1..]);
    SameLetters();
    var n := WordLength(s[1..]);
    assert s[..n + 1][1..] == s[1..][..n];
  }

  lemma {:induction false} WordEnds(s: string)
    ensures AllWordy(s[..WordLength(s)])
    ensures WordLength(s) < |s| ==> !Wordy(s[WordLength(s)])
  {
    SameLetters();
    if s != [] && IsWord(s[0]) {
      WordEnds(s[1..]);
      assert s[..WordLength(s)] == [s[0]] + s[1..][..WordLength(s[1..])];
    }
  }

  // ---- words and paths

  /** s is the upper-case word w, whatever the case of its letters. */
  predicate Alike(s: string, w: string) {
    |s| == |w| && forall i :: 0 <= i < |s| ==> s[i] == w[i] || ('a' <= s[i] <= 'z' && s[i] - 'a' + 'A' == w[i])
  }

  predicate Is(t: Token, w: string) { t.Ident? && Alike(t.text, w) }

  predicate IsFunction(t: Token) {
    Is(t, "ATTRIBUTE_EXISTS") || Is(t, "ATTRIBUTE_NOT_EXISTS") || Is(t, "BEGINS_WITH") || Is(t, "CONTAINS")
  }

  predicate Named(t: Token, name: string) {
    (t.Ident? || t.NameRef?) && t.text == name
  }

  /** An index too large for 64 bits is the largest one. */
  predicate Numbered(t: Token, n: nat) {
    t.ListIdx? && AllDigits(t.text) && n == if Natural(t.text) > 0x7fff_ffff_ffff_ffff then 0x7fff_ffff_ffff_ffff else Natural(t.text)
  }

  /** The tokens from i up to j are a name, then steps `.name` and `[n]`. */
  predicate SegsD(toks: seq<Token>, i: nat, j: nat, segs: seq<Seg>)
    requires i <= j <= |toks|
    decreases |segs|
  {
    if |segs| <= 1 then j == i + 1 && |segs| == 1 && segs[0].Attr? && Named(toks[i], segs[0].name)
    else
      match segs[|segs| - 1]
      case Attr(name) => i + 2 < j && toks[j - 2].Dot? && Named(toks[j - 1], name) && SegsD(toks, i, j - 2, segs[..|segs| - 1])
      case Index(n) => i + 1 < j && Numbered(toks[j - 1], n) && SegsD(toks, i, j - 1, segs[..|segs| - 1])
  }

  function Segs(o: Operand): seq<Seg> {
    match o
    case NameOp(ref) => [Attr(ref)]
    case PlainOp(name) => [Attr(name)]
    case PathOp(segs) => segs
    case _ => []
  }

  predicate PathD(toks: seq<Token>, i: nat, j: nat, o: Operand)
    requires i <= j <= |toks|
  {
    && SegsD(toks, i, j, Segs(o)) && |Segs(o)| <= 33
    && (o.PathOp? ==> |o.segs| > 1)
    && (o.NameOp? ==> "#" <= o.ref)
    && (o.PlainOp? ==> !("#" <= o.name))
  }

  predicate OperandD(toks: seq<Token>, i: nat, j: nat, o: Operand)
    requires i <= j <= |toks|
  {
    match o
    case ValOp(ref) => j == i + 1 && toks[i] == ValRef(ref)
    case SizeOp(path) =>
      i + 3 < j && Is(toks[i], "SIZE") && toks[i + 1] == LParen && PathD(toks, i + 2, j - 1, path) && toks[j - 1] == RParen
    case _ => PathD(toks, i, j, o) && i < j && !Is(toks[i], "SIZE")
  }

  /** What can stand to the left of a comparison, BETWEEN or IN. */
  predicate LeftD(toks: seq<Token>, i: nat, j: nat, o: Operand)
    requires i <= j <= |toks|
  {
    OperandD(toks, i, j, o) && !o.ValOp? && i < j && !IsFunction(toks[i])
  }

  /** Operands with commas between them. */
  ghost predicate OperandsD(toks: seq<Token>, i: nat, j: nat, os: seq<Operand>)
    requires i <= j <= |toks|
    decreases |os|
  {
    if |os| <= 1 then |os| == 1 && OperandD(toks, i, j, os[0])
    else
      exists k :: i < k < j && toks[k] == Comma
                  && OperandsD(toks, i, k, os[..|os| - 1]) && OperandD(toks, k + 1, j, os[|os| - 1])
  }

  // ---- conditions

  ghost predicate BoundsD(toks: seq<Token>, i: nat, j: nat, lo: Operand, hi: Operand)
    requires i <= j <= |toks|
  {
    exists k :: i < k < j && Is(toks[k], "AND") && OperandD(toks, i, k, lo) && OperandD(toks, k + 1, j, hi)
  }

  /** A condition to the right of its operand. */
  ghost predicate RelationD(toks: seq<Token>, k: nat, j: nat, c: Cond)
    requires k < j <= |toks|
  {
    match c
    case Cmp(_, op, r) => toks[k] == OpTok(op) && OperandD(toks, k + 1, j, r)
    case Between(_, lo, hi) => Is(toks[k], "BETWEEN") && BoundsD(toks, k + 1, j, lo, hi)
    case In(_, os) =>
      k + 2 < j && Is(toks[k], "IN") && toks[k + 1] == LParen && OperandsD(toks, k + 2, j - 1, os) && |os| <= 100 && toks[j - 1] == RParen
    case _ => false
  }

  function LeftOf(c: Cond): Operand {
    match c
    case Cmp(l, _, _) => l
    case Between(x, _, _) => x
    case In(x, _) => x
    case _ => ValOp("")
  }

  /** `word(path)`. */
  predicate OneArgD(toks: seq<Token>, i: nat, j: nat, word: string, p: Operand)
    requires i <= j <= |toks|
  {
    i + 3 < j && Is(toks[i], word) && toks[i + 1] == LParen && PathD(toks, i + 2, j - 1, p) && toks[j - 1] == RParen
  }

  /** `word(path, operand)`. */
  ghost predicate TwoArgsD(toks: seq<Token>, i: nat, j: nat, word: string, p: Operand, a: Operand)
    requires i <= j <= |toks|
  {
    && i + 3 < j && Is(toks[i], word) && toks[i + 1] == LParen && toks[j - 1] == RParen
    && exists k :: i + 2 < k < j - 1 && toks[k] == Comma && PathD(toks, i + 2, k, p) && OperandD(toks, k + 1, j - 1, a)
  }

  ghost predicate LeafD(toks: seq<Token>, i: nat, j: nat, c: Cond)
    requires i <= j <= |toks|
  {
    match c
    case Exists(p, negate) => OneArgD(toks, i, j, if negate then "ATTRIBUTE_NOT_EXISTS" else "ATTRIBUTE_EXISTS", p)
    case BeginsWith(p, a) => TwoArgsD(toks, i, j, "BEGINS_WITH", p, a)
    case Contains(p, a) => TwoArgsD(toks, i, j, "CONTAINS", p, a)
    case _ => exists k :: i < k < j && LeftD(toks, i, k, LeftOf(c)) && RelationD(toks, k, j, c)
  }

  ghost predicate PrimaryD(toks: seq<Token>, i: nat, j: nat, c: Cond)
    requires i <= j <= |toks|
    decreases j - i, 0
  {
    || LeafD(toks, i, j, c)
    || (i + 1 < j && toks[i] == LParen && OrD(toks, i + 1, j - 1, c) && toks[j - 1] == RParen)
  }

  /** A leading NOT is the connective, and it takes one primary. */
  ghost predicate NotD(toks: seq<Token>, i: nat, j: nat, c: Cond)
    requires i <= j <= |toks|
    decreases j - i, 1
  {
    i < j && if Is(toks[i], "NOT") then c.Not? && PrimaryD(toks, i + 1, j, c.operand) else PrimaryD(toks, i, j, c)
  }

  /** Of several ANDs the last is the outermost. */
  ghost predicate AndD(toks: seq<Token>, i: nat, j: nat, c: Cond)
    requires i <= j <= |toks|
    decreases j - i, 2
  {
    || NotD(toks, i, j, c)
    || (c.And? && exists k :: i < k < j && Is(toks[k], "AND") && AndD(toks, i, k, c.left) && NotD(toks, k + 1, j, c.right))
  }

  /** OR binds less than AND. */
  ghost predicate OrD(toks: seq<Token>, i: nat, j: nat, c: Cond)
    requires i <= j <= |toks|
    decreases j - i, 3
  {
    || AndD(toks, i, j, c)
    || (c.Or? && exists k :: i < k < j && Is(toks[k], "OR") && OrD(toks, i, k, c.left) && AndD(toks, k + 1, j, c.right))
  }

  /** The text is an expression and c is what it says. */
  ghost predicate Derives(expr: string, c: Cond) {
    exists toks :: Scans(expr, toks) && toks != [] && OrD(toks, 0, |toks| - 1, c)
  }
}
