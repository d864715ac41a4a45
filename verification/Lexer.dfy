/** The tokenizer of filter and condition expressions. `Lex` says what the
    token list of a text is; `Tokenize` is the index loop that computes it;
    `LexSpell` says that spelling tokens out and lexing gives them back. */
module Lexer {
  import opened Values

  datatype Token =
    | EOF
    | Ident(text: string)
    | NameRef(text: string)
    | ValRef(text: string)
    | LParen | RParen | Comma
    | Eq | Neq | Lt | Lte | Gt | Gte
    | Dot
    | ListIdx(text: string)

  predicate IsLetter(c: char) { 'a' <= c <= 'z' || 'A' <= c <= 'Z' || c == '_' }

  predicate IsWord(c: char) { IsLetter(c) || IsDigit(c) }

  predicate IsSpace(c: char) { c == ' ' || c == '\t' || c == '\n' || c == '\r' }

  /** Length of the longest prefix of letters and digits. */
  function WordLength(s: string): (n: nat)
    ensures n <= |s|
  {
    if s == [] || !IsWord(s[0]) then 0 else 1 + WordLength(s[1..])
  }

  function DigitsLength(s: string): (n: nat)
    ensures n <= |s| && AllDigits(s[..n])
  {
    if s == [] || !IsDigit(s[0]) then 0 else 1 + DigitsLength(s[1..])
  }

  /** What the head of a nonempty text is: skipped space, a token with its
      length, or an error. */
  datatype Head = Space | Tok(token: Token, length: nat) | Bad

  function LexHead(s: string): (h: Head)
    requires s != []
    ensures h.Tok? ==> 0 < h.length <= |s| && !h.token.EOF?
    ensures h.Tok? && h.token.ListIdx? ==> AllDigits(h.token.text)
  {
    var c := s[0];
    if IsSpace(c) then Space
    else if c == '(' then Tok(LParen, 1)
    else if c == ')' then Tok(RParen, 1)
    else if c == ',' then Tok(Comma, 1)
    else if c == '=' then Tok(Eq, 1)
    else if c == '<' then
      if |s| > 1 && s[1] == '>' then Tok(Neq, 2)
      else if |s| > 1 && s[1] == '=' then Tok(Lte, 2)
      else Tok(Lt, 1)
    else if c == '>' then
      if |s| > 1 && s[1] == '=' then Tok(Gte, 2) else Tok(Gt, 1)
    else if c == '#' then
      var n := WordLength(s[1..]);
      if n == 0 then Bad else Tok(NameRef(s[..n + 1]), n + 1)
    else if c == ':' then
      var n := WordLength(s[1..]);
      if n == 0 then Bad else Tok(ValRef(s[..n + 1]), n + 1)
    else if c == '.' then Tok(Dot, 1)
    else if c == '[' then
      var n := DigitsLength(s[1..]);
      if n == 0 || n + 1 >= |s| || s[n + 1] != ']' then Bad
      else
        assert s[1..n + 1] == s[1..][..n];
        Tok(ListIdx(s[1..n + 1]), n + 2)
    else if IsLetter(c) then Tok(Ident(s[..WordLength(s)]), WordLength(s))
    else Bad
  }

  /** The token list of a text, ending in EOF; None when some character starts no token. */
  function Lex(s: string): Option<seq<Token>>
    decreases |s|
  {
    if s == [] then Some([EOF])
    else
      match LexHead(s)
      case Space => Lex(s[1..])
      case Bad => None
      case Tok(token, n) =>
        var rest := Lex(s[n..]);
        if rest.None? then None else Some([token] + rest.value)
  }

  /** Exactly the last token is EOF, and a list index holds digits only. */
  predicate TokensOk(toks: seq<Token>) {
    && |toks| > 0
    && toks[|toks| - 1].EOF?
    && (forall i :: 0 <= i < |toks| - 1 ==> !toks[i].EOF?)
    && (forall i :: 0 <= i < |toks| && toks[i].ListIdx? ==> AllDigits(toks[i].text))
  }

  lemma {:induction false} LexOk(s: string)
    ensures Lex(s).Some? ==> TokensOk(Lex(s).value)
    decreases |s|
  {
    if s != [] {
      match LexHead(s) {
        case Space => LexOk(s[1..]);
        case Bad =>
        case Tok(_, n) => LexOk(s[n..]);
      }
    }
  }

  // ---- the index loops of the source

  method ScanWord(expr: string, start: nat) returns (j: nat)
    requires start <= |expr|
    ensures j == start + WordLength(expr[start..]) && j <= |expr|
  {
    j := start;
    while j < |expr| && IsWord(expr[j])
      invariant start <= j <= |expr|
      invariant start + WordLength(expr[start..]) == j + WordLength(expr[j..])
    {
      assert expr[j..][1..] == expr[j + 1..];
      j := j + 1;
    }
  }

  method ScanDigits(expr: string, start: nat) returns (j: nat)
    requires start <= |expr|
    ensures j == start + DigitsLength(expr[start..]) && j <= |expr|
  {
    j := start;
    while j < |expr| && IsDigit(expr[j])
      invariant start <= j <= |expr|
      invariant start + DigitsLength(expr[start..]) == j + DigitsLength(expr[j..])
    {
      assert expr[j..][1..] == expr[j + 1..];
      j := j + 1;
    }
  }

  /** One turn of the tokenizer's switch at position i. */
  method ScanHead(expr: string, i: nat) returns (h: Head)
    requires i < |expr|
    ensures h == LexHead(expr[i..])
  {
    var c := expr[i];
    if IsSpace(c) {
      h := Space;
    } else if c == '(' {
      h := Tok(LParen, 1);
    } else if c == ')' {
      h := Tok(RParen, 1);
    } else if c == ',' {
      h := Tok(Comma, 1);
    } else if c == '=' {
      h := Tok(Eq, 1);
    } else if c == '<' {
      if i + 1 < |expr| && expr[i + 1] == '>' {
        h := Tok(Neq, 2);
      } else if i + 1 < |expr| && expr[i + 1] == '=' {
        h := Tok(Lte, 2);
      } else {
        h := Tok(Lt, 1);
      }
    } else if c == '>' {
      if i + 1 < |expr| && expr[i + 1] == '=' {
        h := Tok(Gte, 2);
      } else {
        h := Tok(Gt, 1);
      }
    } else if c == '.' {
      h := Tok(Dot, 1);
    } else {
      h := ScanLongHead(expr, i);
    }
  }

  method ScanLongHead(expr: string, i: nat) returns (h: Head)
    requires i < |expr|
    requires !IsSpace(expr[i]) && expr[i] !in ['(', ')', ',', '=', '<', '>', '.']
    ensures h == LexHead(expr[i..])
  {
    var c := expr[i];
    var s := expr[i..];
    assert s[1..] == expr[i + 1..];
    if c == '#' || c == ':' {
      var j := ScanWord(expr, i + 1);
      assert s[..j - i] == expr[i..j];
      if j == i + 1 {
        h := Bad;
      } else {
        h := Tok(if c == '#' then NameRef(expr[i..j]) else ValRef(expr[i..j]), j - i);
      }
    } else if c == '[' {
      var j := ScanDigits(expr, i + 1);
      if j == i + 1 || j >= |expr| || expr[j] != ']' {
        h := Bad;
      } else {
        assert s[1..j - i] == expr[i + 1..j];
        h := Tok(ListIdx(expr[i + 1..j]), j + 1 - i);
      }
    } else if IsLetter(c) {
      var j := ScanWord(expr, i);
      assert s[..j - i] == expr[i..j];
      h := Tok(Ident(expr[i..j]), j - i);
    } else {
      h := Bad;
    }
  }

  /** Adds the token at position i, if one starts there, to those found so far. */
  method ScanNext(expr: string, i: nat, toks: seq<Token>) returns (j: nat, more: seq<Token>, ok: bool)
    requires i < |expr|
    ensures !ok ==> Lex(expr[i..]) == None
    ensures ok ==> i < j <= |expr|
    ensures ok ==> Prefixed(toks, Lex(expr[i..])) == Prefixed(more, Lex(expr[j..]))
  {
    var h := ScanHead(expr, i);
    match h {
      case Space =>
        assert expr[i..][1..] == expr[i + 1..];
        j, more, ok := i + 1, toks, true;
      case Bad =>
        j, more, ok := i, toks, false;
      case Tok(token, n) =>
        assert expr[i..][n..] == expr[i + n..];
        PrefixedOne(toks, token, Lex(expr[i + n..]));
        j, more, ok := i + n, toks + [token], true;
    }
  }

  method Tokenize(expr: string) returns (r: Option<seq<Token>>)
    ensures r == Lex(expr)
  {
    var toks: seq<Token> := [];
    var i := 0;
    assert expr[0..] == expr;
    PrefixedNone(Lex(expr));
    while i < |expr|
      invariant i <= |expr|
      invariant Lex(expr) == Prefixed(toks, Lex(expr[i..]))
    {
      var ok;
      i, toks, ok := ScanNext(expr, i, toks);
      if !ok {
        return None;
      }
    }
    r := Some(toks + [EOF]);
  }

  function Prefixed(toks: seq<Token>, r: Option<seq<Token>>): Option<seq<Token>> {
    if r.None? then None else Some(toks + r.value)
  }

  lemma PrefixedNone(r: Option<seq<Token>>)
    ensures Prefixed([], r) == r
  {
    if r.Some? {
      assert [] + r.value == r.value;
    }
  }

  lemma PrefixedOne(toks: seq<Token>, token: Token, r: Option<seq<Token>>)
    ensures Prefixed(toks, Prefixed([token], r)) == Prefixed(toks + [token], r)
  {
    if r.Some? {
      assert toks + ([token] + r.value) == (toks + [token]) + r.value;
    }
  }

  // ---- spelling tokens out

  function Text(token: Token): string {
    match token
    case EOF => ""
    case Ident(t) => t
    case NameRef(t) => t
    case ValRef(t) => t
    case LParen => "("
    case RParen => ")"
    case Comma => ","
    case Eq => "="
    case Neq => "<>"
    case Lt => "<"
    case Lte => "<="
    case Gt => ">"
    case Gte => ">="
    case Dot => "."
    case ListIdx(t) => "[" + t + "]"
  }

  predicate AllWord(s: string) {
    forall i :: 0 <= i < |s| ==> IsWord(s[i])
  }

  /** Tokens a text can contain. */
  predicate Spellable(token: Token) {
    match token
    case EOF => false
    case Ident(t) => |t| > 0 && IsLetter(t[0]) && AllWord(t)
    case NameRef(t) => |t| > 1 && t[0] == '#' && AllWord(t[1..])
    case ValRef(t) => |t| > 1 && t[0] == ':' && AllWord(t[1..])
    case ListIdx(t) => |t| > 0 && AllDigits(t)
    case _ => true
  }

  /** Whether text that starts with c, put right behind the token, leaves the token alone. */
  predicate Closes(token: Token, c: char) {
    match token
    case Ident(_) => !IsWord(c)
    case NameRef(_) => !IsWord(c)
    case ValRef(_) => !IsWord(c)
    case Lt => c != '>' && c != '='
    case Gt => c != '='
    case _ => true
  }

  lemma {:induction false} WordLengthOf(w: string, rest: string)
    requires AllWord(w)
    requires rest == [] || !IsWord(rest[0])
    ensures WordLength(w + rest) == |w|
  {
    if w == [] {
      assert w + rest == rest;
    } else {
      assert (w + rest)[1..] == w[1..] + rest;
      WordLengthOf(w[1..], rest);
    }
  }

  lemma {:induction false} DigitsLengthOf(w: string, rest: string)
    requires AllDigits(w)
    requires rest == [] || !IsDigit(rest[0])
    ensures DigitsLength(w + rest) == |w|
  {
    if w == [] {
      assert w + rest == rest;
    } else {
      assert (w + rest)[1..] == w[1..] + rest;
      DigitsLengthOf(w[1..], rest);
    }
  }

  lemma HeadOfWord(token: Token, rest: string)
    requires token.Ident? || token.NameRef? || token.ValRef?
    requires Spellable(token)
    requires rest == [] || Closes(token, rest[0])
    ensures LexHead(Text(token) + rest) == Tok(token, |Text(token)|)
  {
    var t := Text(token);
    var s := t + rest;
    assert s[..|t|] == t && s[0] == t[0];
    if token.Ident? {
      WordLengthOf(t, rest);
    } else {
      assert s[1..] == t[1..] + rest;
      WordLengthOf(t[1..], rest);
    }
  }

  lemma HeadOfListIdx(d: string, rest: string)
    requires Spellable(ListIdx(d))
    ensures LexHead(Text(ListIdx(d)) + rest) == Tok(ListIdx(d), |d| + 2)
  {
    var s := Text(ListIdx(d)) + rest;
    assert s[1..] == d + ("]" + rest);
    DigitsLengthOf(d, "]" + rest);
    assert s[1..|d| + 1] == d;
  }

  lemma HeadOfText(token: Token, rest: string)
    requires Spellable(token)
    requires rest == [] || Closes(token, rest[0])
    ensures LexHead(Text(token) + rest) == Tok(token, |Text(token)|)
  {
    if token.Ident? || token.NameRef? || token.ValRef? {
      HeadOfWord(token, rest);
    } else if token.ListIdx? {
      HeadOfListIdx(token.text, rest);
    }
  }

  lemma LexToken(token: Token, rest: string)
    requires Spellable(token)
    requires rest == [] || Closes(token, rest[0])
    ensures Lex(Text(token) + rest) == Prefixed([token], Lex(rest))
  {
    hide LexHead;
    HeadOfText(token, rest);
    assert (Text(token) + rest)[|Text(token)|..] == rest;
  }

  lemma LexBlank(rest: string)
    ensures Lex(" " + rest) == Lex(rest)
  {
    assert (" " + rest)[1..] == rest;
  }

  /** A token and whether a blank is written behind it. */
  datatype Piece = Piece(token: Token, spaced: bool)

  function Gap(spaced: bool): string { if spaced then " " else "" }

  lemma LexGap(spaced: bool, rest: string)
    ensures Lex(Gap(spaced) + rest) == Lex(rest)
  {
    if spaced {
      LexBlank(rest);
    } else {
      assert Gap(spaced) + rest == rest;
    }
  }

  lemma LexPiece(piece: Piece, rest: string)
    requires Spellable(piece.token)
    requires piece.spaced || rest == [] || Closes(piece.token, rest[0])
    ensures Lex(Text(piece.token) + (Gap(piece.spaced) + rest)) == Prefixed([piece.token], Lex(rest))
  {
    var tail := Gap(piece.spaced) + rest;
    assert tail == [] || Closes(piece.token, tail[0]);
    LexToken(piece.token, tail);
    LexGap(piece.spaced, rest);
  }

  function Spell(pieces: seq<Piece>): string {
    if pieces == [] then ""
    else Text(pieces[0].token) + (Gap(pieces[0].spaced) + Spell(pieces[1..]))
  }

  function Tokens(pieces: seq<Piece>): (r: seq<Token>)
    ensures |r| == |pieces|
    ensures forall i :: 0 <= i < |pieces| ==> r[i] == pieces[i].token
  {
    if pieces == [] then [] else [pieces[0].token] + Tokens(pieces[1..])
  }

  /** Every token can be spelled, and where no blank follows, the next token does not run into it. */
  predicate Separated(pieces: seq<Piece>) {
    && (forall i :: 0 <= i < |pieces| ==> Spellable(pieces[i].token))
    && (forall i :: 0 <= i < |pieces| - 1 ==> Joint(pieces[i], pieces[i + 1]))
  }

  predicate Joint(p: Piece, q: Piece) {
    p.spaced || (Text(q.token) != "" && Closes(p.token, Text(q.token)[0]))
  }

  lemma SeparatedCons(p: Piece, ps: seq<Piece>)
    requires Spellable(p.token) && Separated(ps) && (ps != [] ==> Joint(p, ps[0]))
    ensures Separated([p] + ps)
  {
    hide Spellable, Joint;
    var qs := [p] + ps;
    forall i | 0 <= i < |qs| - 1
      ensures Joint(qs[i], qs[i + 1])
    {
      if i > 0 {
        assert Joint(ps[i - 1], ps[i]);
      }
    }
  }

  lemma {:induction false} LexSpell(pieces: seq<Piece>)
    requires Separated(pieces)
    ensures Lex(Spell(pieces)) == Some(Tokens(pieces) + [EOF])
  {
    if pieces == [] {
      assert Tokens(pieces) + [EOF] == [EOF];
    } else {
      var token, rest := pieces[0].token, pieces[1..];
      LexSpell(rest);
      SpellHead(rest);
      LexPiece(pieces[0], Spell(rest));
      assert Tokens(pieces) + [EOF] == [token] + (Tokens(rest) + [EOF]);
    }
  }

  lemma SpellHead(pieces: seq<Piece>)
    requires pieces != [] ==> Spellable(pieces[0].token)
    ensures pieces == [] ==> Spell(pieces) == ""
    ensures pieces != [] ==> Spell(pieces) != "" && Spell(pieces)[0] == Text(pieces[0].token)[0]
  {
  }

  lemma {:induction false} SpellConcat(a: seq<Piece>, b: seq<Piece>)
    ensures Spell(a + b) == Spell(a) + Spell(b)
  {
    hide Text, Gap;
    if a == [] {
      assert a + b == b;
    } else {
      SpellConcat(a[1..], b);
      assert (a + b)[1..] == a[1..] + b;
      var head, gap := Text(a[0].token), Gap(a[0].spaced);
      Regroup(head, gap, Spell(a[1..]), Spell(b));
    }
  }

  lemma Regroup(w: string, x: string, y: string, z: string)
    ensures w + (x + (y + z)) == (w + (x + y)) + z
  {
  }
}
