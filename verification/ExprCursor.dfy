/** The parser as the engine runs it: an object holding a token list and a
    cursor that its mutually recursive methods move. Every method is tied to
    the parsing function of the same name, and every read of the token list is
    within bounds: a cursor that has passed EOF belongs to a failed parse and
    is never read again. */
module ExprCursor {
  import opened Values
  import opened Lexer
  import P = Parser

  class ExprParser {
    const toks: seq<Token>
    var pos: nat

    ghost predicate Valid()
      reads this
    {
      TokensOk(toks) && pos < |toks|
    }

    constructor (toks: seq<Token>)
      requires TokensOk(toks)
      ensures Valid() && this.toks == toks && pos == 0
    {
      this.toks := toks;
      pos := 0;
    }

    /** A method's outcome is the parse a function describes: same node, cursor
        on its next token, or no node. */
    ghost predicate Agrees<T>(spec: P.Parse<T>, r: Option<T>)
      reads this
    {
      match spec
      case Fail => r.None?
      case Parsed(node, next) => r == Some(node) && pos == next
    }

    function Peek(): Token
      requires Valid()
      reads this
    {
      toks[pos]
    }

    method Consume() returns (t: Token)
      requires Valid()
      modifies this
      ensures t == toks[old(pos)] && pos == old(pos) + 1
      ensures !t.EOF? ==> Valid()
    {
      t := toks[pos];
      pos := pos + 1;
    }

    method ExpectKind(t: Token) returns (ok: bool)
      requires Valid() && !t.EOF?
      modifies this
      ensures ok == P.Expect(toks, old(pos), t) && pos == old(pos) + 1
      ensures ok ==> Valid()
    {
      var got := Consume();
      ok := got == t;
    }

    method ParseAttrPath() returns (r: Option<P.Operand>)
      requires Valid()
      modifies this
      ensures Agrees(P.ParseAttrPath(toks, old(pos)), r)
    {
      var t := Peek();
      if !P.IsName(t) {
        return None;
      }
      var _ := Consume();
      var segs := [P.Attr(t.text)];
      ghost var tail := P.PathTail(toks, pos, segs);
      while Peek().Dot? || Peek().ListIdx?
        invariant Valid()
        invariant |segs| > 0 && segs[0] == P.Attr(t.text)
        invariant P.PathTail(toks, pos, segs) == tail
        decreases |toks| - pos
      {
        if Peek().Dot? {
          var _ := Consume();
          var next := Peek();
          if !P.IsName(next) {
            return None;
          }
          var _ := Consume();
          segs := segs + [P.Attr(next.text)];
        } else {
          var idx := Consume();
          segs := segs + [P.Index(P.Atoi(idx.text))];
        }
      }
      if |segs| - 1 > P.MAX_DEPTH {
        return None;
      }
      r := Some(P.OperandOf(segs));
    }

    method ParseSize() returns (r: Option<P.Operand>)
      requires Valid() && !Peek().EOF?
      modifies this
      ensures Agrees(P.ParseSize(toks, old(pos)), r)
    {
      var _ := Consume();
      var ok := ExpectKind(LParen);
      if !ok {
        return None;
      }
      var path := ParseAttrPath();
      if path.None? {
        return None;
      }
      ok := ExpectKind(RParen);
      r := if ok then Some(P.SizeOp(path.value)) else None;
    }

    method ParseOperand() returns (r: Option<P.Operand>)
      requires Valid()
      modifies this
      ensures Agrees(P.ParseOperand(toks, old(pos)), r)
    {
      if P.IsKeyword(Peek(), P.SIZE) {
        r := ParseSize();
        return;
      }
      var t := Peek();
      if t.ValRef? {
        var _ := Consume();
        r := Some(P.ValOp(t.text));
      } else if P.IsName(t) {
        r := ParseAttrPath();
      } else {
        r := None;
      }
    }

    method ParseExists(negate: bool) returns (r: Option<P.Cond>)
      requires Valid() && !Peek().EOF?
      modifies this
      ensures Agrees(P.ParseExists(toks, old(pos), negate), r)
    {
      var _ := Consume();
      var ok := ExpectKind(LParen);
      if !ok {
        return None;
      }
      var path := ParseAttrPath();
      if path.None? {
        return None;
      }
      ok := ExpectKind(RParen);
      r := if ok then Some(P.Exists(path.value, negate)) else None;
    }

    /** `parseBeginsWithFunc` and `parseContainsFunc` differ only in the node they build. */
    method ParseTwoArgs(f: P.Func) returns (r: Option<P.Cond>)
      requires Valid() && !Peek().EOF?
      modifies this
      ensures Agrees(P.ParseTwoArgs(toks, old(pos), f), r)
    {
      var _ := Consume();
      var ok := ExpectKind(LParen);
      if !ok {
        return None;
      }
      var path := ParseAttrPath();
      if path.None? {
        return None;
      }
      ok := ExpectKind(Comma);
      if !ok {
        return None;
      }
      var arg := ParseOperand();
      if arg.None? {
        return None;
      }
      ok := ExpectKind(RParen);
      if !ok {
        return None;
      }
      r := Some(if f.BeginsWithFn? then P.BeginsWith(path.value, arg.value)
                else P.Contains(path.value, arg.value));
    }

    method ParseBetween(left: P.Operand) returns (r: Option<P.Cond>)
      requires Valid()
      modifies this
      ensures Agrees(P.ParseBetween(toks, old(pos), left), r)
    {
      var lo := ParseOperand();
      if lo.None? || !P.IsKeyword(Peek(), P.AND) {
        return None;
      }
      var _ := Consume();
      var hi := ParseOperand();
      if hi.None? {
        return None;
      }
      r := Some(P.Between(left, lo.value, hi.value));
    }

    method ParseIn(left: P.Operand) returns (r: Option<P.Cond>)
      requires Valid()
      modifies this
      ensures Agrees(P.ParseIn(toks, old(pos), left), r)
    {
      var ok := ExpectKind(LParen);
      if !ok {
        return None;
      }
      var first := ParseOperand();
      if first.None? {
        return None;
      }
      var choices := [first.value];
      ghost var tail := P.InTail(toks, pos, choices);
      while Peek().Comma?
        invariant Valid()
        invariant P.InTail(toks, pos, choices) == tail
        decreases |toks| - pos
      {
        var _ := Consume();
        var v := ParseOperand();
        if v.None? {
          return None;
        }
        choices := choices + [v.value];
        if |choices| > P.MAX_IN {
          return None;
        }
      }
      ok := ExpectKind(RParen);
      r := if ok then Some(P.In(left, choices)) else None;
    }

    method ParseRelation(left: P.Operand) returns (r: Option<P.Cond>)
      requires Valid()
      modifies this
      ensures Agrees(P.ParseRelation(toks, old(pos), left), r)
    {
      var t := Peek();
      if P.IsKeyword(t, P.BETWEEN) {
        var _ := Consume();
        r := ParseBetween(left);
      } else if P.IsKeyword(t, P.IN) {
        var _ := Consume();
        r := ParseIn(left);
      } else if P.CmpOpOf(t).None? {
        r := None;
      } else {
        var _ := Consume();
        var right := ParseOperand();
        if right.None? {
          return None;
        }
        r := Some(P.Cmp(left, P.CmpOpOf(t).value, right.value));
      }
    }

    method ParseComparison() returns (r: Option<P.Cond>)
      requires Valid()
      modifies this
      ensures Agrees(P.ParseComparison(toks, old(pos)), r)
    {
      var left;
      if P.IsKeyword(Peek(), P.SIZE) {
        left := ParseSize();
      } else {
        left := ParseAttrPath();
      }
      if left.None? {
        return None;
      }
      r := ParseRelation(left.value);
    }

    method ParsePrimary() returns (r: Option<P.Cond>)
      requires Valid()
      modifies this
      ensures Agrees(P.ParsePrimary(toks, old(pos)), r)
      decreases |toks| - pos, 0
    {
      if Peek().LParen? {
        var _ := Consume();
        var inner := ParseOr();
        if inner.None? {
          return None;
        }
        var ok := ExpectKind(RParen);
        return if ok then inner else None;
      }
      match P.FuncOf(Peek()) {
        case AttributeExists => r := ParseExists(false);
        case AttributeNotExists => r := ParseExists(true);
        case BeginsWithFn => r := ParseTwoArgs(P.BeginsWithFn);
        case ContainsFn => r := ParseTwoArgs(P.ContainsFn);
        case NoFunc => r := ParseComparison();
      }
    }

    method ParseNot() returns (r: Option<P.Cond>)
      requires Valid()
      modifies this
      ensures Agrees(P.ParseNot(toks, old(pos)), r)
      decreases |toks| - pos, 1
    {
      if P.IsKeyword(Peek(), P.NOT) {
        var _ := Consume();
        var operand := ParsePrimary();
        return if operand.Some? then Some(P.Not(operand.value)) else None;
      }
      r := ParsePrimary();
    }

    method ParseAnd() returns (r: Option<P.Cond>)
      requires Valid()
      modifies this
      ensures Agrees(P.ParseAnd(toks, old(pos)), r)
      decreases |toks| - pos, 2
    {
      r := ParseNot();
      if r.None? {
        return;
      }
      ghost var tail := P.AndTail(toks, pos, r.value);
      while P.IsKeyword(Peek(), P.AND)
        invariant Valid() && old(pos) <= pos && r.Some?
        invariant P.AndTail(toks, pos, r.value) == tail
        decreases |toks| - pos
      {
        var _ := Consume();
        var right := ParseNot();
        if right.None? {
          return None;
        }
        r := Some(P.And(r.value, right.value));
      }
    }

    method ParseOr() returns (r: Option<P.Cond>)
      requires Valid()
      modifies this
      ensures Agrees(P.ParseOr(toks, old(pos)), r)
      decreases |toks| - pos, 3
    {
      r := ParseAnd();
      if r.None? {
        return;
      }
      ghost var tail := P.OrTail(toks, pos, r.value);
      while P.IsKeyword(Peek(), P.OR)
        invariant Valid() && old(pos) <= pos && r.Some?
        invariant P.OrTail(toks, pos, r.value) == tail
        decreases |toks| - pos
      {
        var _ := Consume();
        var right := ParseAnd();
        if right.None? {
          return None;
        }
        r := Some(P.Or(r.value, right.value));
      }
    }
  }

  /** `parseFilterExpr` for every text: it ends, reads no token past EOF, and
      gives the tree the grammar functions define. */
  method ParseFilterExpr(expr: string) returns (r: Option<P.Cond>)
    ensures r == P.ParseFilter(expr)
  {
    var toks := Tokenize(expr);
    if toks.None? {
      return None;
    }
    LexOk(expr);
    var p := new ExprParser(toks.value);
    var node := p.ParseOr();
    if node.None? || !p.Peek().EOF? {
      return None;
    }
    r := node;
  }
}
