/** The recursive-descent parser of filter expressions: what each parsing
    function accepts, as functions on a token list and a position. */
module Parser {
  import opened Values
  import opened Lexer

  /** One step of a document path. */
  datatype Seg = Attr(name: string) | Index(index: nat)

  datatype Operand =
    | NameOp(ref: string)
    | ValOp(ref: string)
    | PlainOp(name: string)
    | SizeOp(path: Operand)
    | PathOp(segs: seq<Seg>)

  datatype CmpOp = EqOp | NeqOp | LtOp | LteOp | GtOp | GteOp

  datatype Cond =
    | And(left: Cond, right: Cond)
    | Or(left: Cond, right: Cond)
    | Not(operand: Cond)
    | Cmp(lhs: Operand, op: CmpOp, rhs: Operand)
    | Exists(path: Operand, negate: bool)
    | BeginsWith(path: Operand, arg: Operand)
    | Contains(path: Operand, arg: Operand)
    | Between(attr: Operand, lo: Operand, hi: Operand)
    | In(attr: Operand, choices: seq<Operand>)

  datatype Keyword = AND | OR | NOT | BETWEEN | IN | SIZE

  datatype Func = AttributeExists | AttributeNotExists | BeginsWithFn | ContainsFn | NoFunc

  const MAX_DEPTH := 32
  const MAX_IN := 100
  const MAX_INT := 0x7fff_ffff_ffff_ffff

  function Upper(s: string): (r: string)
    ensures |r| == |s|
  {
    if s == [] then []
    else [if 'a' <= s[0] <= 'z' then s[0] - 'a' + 'A' else s[0]] + Upper(s[1..])
  }

  function KeywordText(k: Keyword): string {
    match k
    case AND => "AND"
    case OR => "OR"
    case NOT => "NOT"
    case BETWEEN => "BETWEEN"
    case IN => "IN"
    case SIZE => "SIZE"
  }

  predicate IsKeyword(t: Token, k: Keyword) {
    t.Ident? && Upper(t.text) == KeywordText(k)
  }

  /** Function names are matched without regard to case; comparing upper-cased
      text decides the same as the source's lower-casing. */
  function FuncOf(t: Token): Func {
    if !t.Ident? then NoFunc
    else
      var u := Upper(t.text);
      if u == "ATTRIBUTE_EXISTS" then AttributeExists
      else if u == "ATTRIBUTE_NOT_EXISTS" then AttributeNotExists
      else if u == "BEGINS_WITH" then BeginsWithFn
      else if u == "CONTAINS" then ContainsFn
      else NoFunc
  }

  /** `strconv.Atoi` with its error dropped: saturates at the largest 64-bit integer. */
  function Atoi(digits: string): nat
    requires AllDigits(digits)
  {
    var n := Natural(digits);
    if n > MAX_INT then MAX_INT else n
  }

  datatype Parse<+T> = Parsed(node: T, next: nat) | Fail

  /** A parse that succeeds has moved forward and stopped on a token. */
  predicate Advances<T>(r: Parse<T>, toks: seq<Token>, pos: nat) {
    r.Parsed? ==> pos < r.next < |toks|
  }

  function Expect(toks: seq<Token>, pos: nat, t: Token): (ok: bool)
    requires TokensOk(toks) && pos < |toks| && !t.EOF?
    ensures ok ==> pos + 1 < |toks|
  {
    toks[pos] == t
  }

  predicate IsName(t: Token) { t.Ident? || t.NameRef? }

  function PathTail(toks: seq<Token>, pos: nat, segs: seq<Seg>): (r: Parse<seq<Seg>>)
    requires TokensOk(toks) && pos < |toks|
    ensures r.Parsed? ==> pos <= r.next < |toks| && segs <= r.node
    decreases |toks| - pos
  {
    match toks[pos]
    case Dot =>
      if IsName(toks[pos + 1])
      then PathTail(toks, pos + 2, segs + [Attr(toks[pos + 1].text)])
      else Fail
    case ListIdx(d) => PathTail(toks, pos + 1, segs + [Index(Atoi(d))])
    case _ => Parsed(segs, pos)
  }

  function OperandOf(segs: seq<Seg>): Operand
    requires |segs| > 0 && segs[0].Attr?
  {
    if |segs| > 1 then PathOp(segs)
    else if "#" <= segs[0].name then NameOp(segs[0].name)
    else PlainOp(segs[0].name)
  }

  function ParseAttrPath(toks: seq<Token>, pos: nat): (r: Parse<Operand>)
    requires TokensOk(toks) && pos < |toks|
    ensures Advances(r, toks, pos)
  {
    if !IsName(toks[pos]) then Fail
    else
      var tail := PathTail(toks, pos + 1, [Attr(toks[pos].text)]);
      if tail.Fail? || |tail.node| - 1 > MAX_DEPTH then Fail
      else Parsed(OperandOf(tail.node), tail.next)
  }

  function ParseSize(toks: seq<Token>, pos: nat): (r: Parse<Operand>)
    requires TokensOk(toks) && pos < |toks| && !toks[pos].EOF?
    ensures Advances(r, toks, pos)
  {
    if !Expect(toks, pos + 1, LParen) then Fail
    else
      var path := ParseAttrPath(toks, pos + 2);
      if path.Fail? || !Expect(toks, path.next, RParen) then Fail
      else Parsed(SizeOp(path.node), path.next + 1)
  }

  function ParseOperand(toks: seq<Token>, pos: nat): (r: Parse<Operand>)
    requires TokensOk(toks) && pos < |toks|
    ensures Advances(r, toks, pos)
  {
    if IsKeyword(toks[pos], SIZE) then ParseSize(toks, pos)
    else if toks[pos].ValRef? then Parsed(ValOp(toks[pos].text), pos + 1)
    else ParseAttrPath(toks, pos)
  }

  /** `name(path)` with pos on the function name. */
  function ParseExists(toks: seq<Token>, pos: nat, negate: bool): (r: Parse<Cond>)
    requires TokensOk(toks) && pos < |toks| && !toks[pos].EOF?
    ensures Advances(r, toks, pos)
  {
    if !Expect(toks, pos + 1, LParen) then Fail
    else
      var path := ParseAttrPath(toks, pos + 2);
      if path.Fail? || !Expect(toks, path.next, RParen) then Fail
      else Parsed(Exists(path.node, negate), path.next + 1)
  }

  /** `name(path, operand)` with pos on the function name. */
  function ParseTwoArgs(toks: seq<Token>, pos: nat, f: Func): (r: Parse<Cond>)
    requires TokensOk(toks) && pos < |toks| && !toks[pos].EOF?
    ensures Advances(r, toks, pos)
  {
    if !Expect(toks, pos + 1, LParen) then Fail
    else
      var path := ParseAttrPath(toks, pos + 2);
      if path.Fail? || !Expect(toks, path.next, Comma) then Fail
      else
        var arg := ParseOperand(toks, path.next + 1);
        if arg.Fail? || !Expect(toks, arg.next, RParen) then Fail
        else
          var node := if f.BeginsWithFn? then BeginsWith(path.node, arg.node)
                      else Contains(path.node, arg.node);
          Parsed(node, arg.next + 1)
  }

  function ParseBetween(toks: seq<Token>, pos: nat, left: Operand): (r: Parse<Cond>)
    requires TokensOk(toks) && pos < |toks|
    ensures Advances(r, toks, pos)
  {
    var lo := ParseOperand(toks, pos);
    if lo.Fail? || !IsKeyword(toks[lo.next], AND) then Fail
    else
      var hi := ParseOperand(toks, lo.next + 1);
      if hi.Fail? then Fail else Parsed(Between(left, lo.node, hi.node), hi.next)
  }

  /** The comma loop of an IN list; the 101st value is rejected as it is read. */
  function InTail(toks: seq<Token>, pos: nat, choices: seq<Operand>): (r: Parse<seq<Operand>>)
    requires TokensOk(toks) && pos < |toks|
    ensures r.Parsed? ==> pos <= r.next < |toks| && choices <= r.node
    decreases |toks| - pos
  {
    if !toks[pos].Comma? then Parsed(choices, pos)
    else
      var v := ParseOperand(toks, pos + 1);
      if v.Fail? || |choices| + 1 > MAX_IN then Fail
      else InTail(toks, v.next, choices + [v.node])
  }

  function ParseIn(toks: seq<Token>, pos: nat, left: Operand): (r: Parse<Cond>)
    requires TokensOk(toks) && pos < |toks|
    ensures Advances(r, toks, pos)
  {
    if !Expect(toks, pos, LParen) then Fail
    else
      var first := ParseOperand(toks, pos + 1);
      if first.Fail? then Fail
      else
        var tail := InTail(toks, first.next, [first.node]);
        if tail.Fail? || !Expect(toks, tail.next, RParen) then Fail
        else Parsed(In(left, tail.node), tail.next + 1)
  }

  function CmpOpOf(t: Token): Option<CmpOp> {
    match t
    case Eq => Some(EqOp)
    case Neq => Some(NeqOp)
    case Lt => Some(LtOp)
    case Lte => Some(LteOp)
    case Gt => Some(GtOp)
    case Gte => Some(GteOp)
    case _ => None
  }

  /** What follows the left operand: BETWEEN, IN or a comparison operator. */
  function ParseRelation(toks: seq<Token>, pos: nat, left: Operand): (r: Parse<Cond>)
    requires TokensOk(toks) && pos < |toks|
    ensures Advances(r, toks, pos)
  {
    var t := toks[pos];
    if IsKeyword(t, BETWEEN) then ParseBetween(toks, pos + 1, left)
    else if IsKeyword(t, IN) then ParseIn(toks, pos + 1, left)
    else if CmpOpOf(t).None? then Fail
    else
      var right := ParseOperand(toks, pos + 1);
      if right.Fail? then Fail
      else Parsed(Cmp(left, CmpOpOf(t).value, right.node), right.next)
  }

  function ParseComparison(toks: seq<Token>, pos: nat): (r: Parse<Cond>)
    requires TokensOk(toks) && pos < |toks|
    ensures Advances(r, toks, pos)
  {
    var left := if IsKeyword(toks[pos], SIZE) then ParseSize(toks, pos) else ParseAttrPath(toks, pos);
    if left.Fail? then Fail else ParseRelation(toks, left.next, left.node)
  }

  function ParsePrimary(toks: seq<Token>, pos: nat): (r: Parse<Cond>)
    requires TokensOk(toks) && pos < |toks|
    ensures Advances(r, toks, pos)
    decreases |toks| - pos, 0
  {
    if toks[pos].LParen? then
      var inner := ParseOr(toks, pos + 1);
      if inner.Fail? || !Expect(toks, inner.next, RParen) then Fail
      else Parsed(inner.node, inner.next + 1)
    else
      match FuncOf(toks[pos])
      case AttributeExists => ParseExists(toks, pos, false)
      case AttributeNotExists => ParseExists(toks, pos, true)
      case BeginsWithFn => ParseTwoArgs(toks, pos, BeginsWithFn)
      case ContainsFn => ParseTwoArgs(toks, pos, ContainsFn)
      case NoFunc => ParseComparison(toks, pos)
  }

  /** NOT binds a primary, so `NOT NOT x` is no expression. */
  function ParseNot(toks: seq<Token>, pos: nat): (r: Parse<Cond>)
    requires TokensOk(toks) && pos < |toks|
    ensures Advances(r, toks, pos)
    decreases |toks| - pos, 1
  {
    if IsKeyword(toks[pos], NOT) then
      var operand := ParsePrimary(toks, pos + 1);
      if operand.Fail? then Fail else Parsed(Not(operand.node), operand.next)
    else ParsePrimary(toks, pos)
  }

  function AndTail(toks: seq<Token>, pos: nat, left: Cond): (r: Parse<Cond>)
    requires TokensOk(toks) && pos < |toks|
    ensures r.Parsed? ==> pos <= r.next < |toks|
    decreases |toks| - pos, 2
  {
    if !IsKeyword(toks[pos], AND) then Parsed(left, pos)
    else
      var right := ParseNot(toks, pos + 1);
      if right.Fail? then Fail else AndTail(toks, right.next, And(left, right.node))
  }

  function ParseAnd(toks: seq<Token>, pos: nat): (r: Parse<Cond>)
    requires TokensOk(toks) && pos < |toks|
    ensures Advances(r, toks, pos)
    decreases |toks| - pos, 3
  {
    var left := ParseNot(toks, pos);
    if left.Fail? then Fail else AndTail(toks, left.next, left.node)
  }

  function OrTail(toks: seq<Token>, pos: nat, left: Cond): (r: Parse<Cond>)
    requires TokensOk(toks) && pos < |toks|
    ensures r.Parsed? ==> pos <= r.next < |toks|
    decreases |toks| - pos, 4
  {
    if !IsKeyword(toks[pos], OR) then Parsed(left, pos)
    else
      var right := ParseAnd(toks, pos + 1);
      if right.Fail? then Fail else OrTail(toks, right.next, Or(left, right.node))
  }

  function ParseOr(toks: seq<Token>, pos: nat): (r: Parse<Cond>)
    requires TokensOk(toks) && pos < |toks|
    ensures Advances(r, toks, pos)
    decreases |toks| - pos, 5
  {
    var left := ParseAnd(toks, pos);
    if left.Fail? then Fail else OrTail(toks, left.next, left.node)
  }

  /** `parseFilterExpr`: the whole text must be one expression. */
  function ParseFilter(expr: string): Option<Cond> {
    var toks := Lex(expr);
    if toks.None? then None
    else
      LexOk(expr);
      var r := ParseOr(toks.value, 0);
      if r.Parsed? && toks.value[r.next].EOF? then Some(r.node) else None
  }
}
