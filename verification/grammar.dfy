/** The grammar of `SearchParser` as a recursive-descent parser over the
    lexer's output. The yacc grammar is ambiguous and disambiguated by its
    precedence table (OR < AND < NOT < IN, `and`/`or` left-associative);
    the three levels below (`ParseOr`, `ParseAnd`, `ParseUnary`) give the
    same trees. Like PLY's parser, this one asks for a token only after the
    tokens before it form a valid prefix, so the first error it meets,
    whether from the lexer or the grammar, is the one the source raises. */
module Grammar {
  import opened Wrappers
  import opened Tokens
  import opened Lexer

  datatype CmpOp = Eq | NotEq | Gte | Gt | Lte | Lt

  /** A parse tree: one node per grammar action that builds something.
      Grouping parentheses leave no node. */
  datatype Expr =
    | Compare(attr: string, op: CmpOp, value: Value)   // rule : ATTRIBUTE op value
    | Member(attr: string, items: seq<Value>)          // rule : ATTRIBUTE IN '[' list ']'
    | Conj(left: Expr, right: Expr)                    // expression AND expression
    | Disj(left: Expr, right: Expr)                    // expression OR expression
    | Negation(inner: Expr)                            // NOT expression

  /** A parsed phrase and the index of the first token after it. */
  datatype Parsed<T> = Parsed(tree: T, next: nat)

  /** What the parser sees when it asks for token `i`. */
  datatype Lookahead = Tok(t: Token) | Halt(stop: Stop)

  function Peek(s: Lexed, i: nat): (r: Lookahead)
    requires i <= |s.tokens|
    ensures r.Tok? <==> i < |s.tokens|
    ensures r.Tok? ==> r.t == s.tokens[i]
    ensures r.Halt? ==> r.stop == s.stop
  {
    if i < |s.tokens| then Tok(s.tokens[i]) else Halt(s.stop)
  }

  /** The error raised when the parser cannot use what it sees: `p_error`
      on a real token, `p_error(None)` at the end, or the lexer's own error
      when asking for the token failed. */
  function Reject(a: Lookahead): Error {
    match a
    case Tok(t) => SyntaxError(t.value, t.pos)
    case Halt(Finished) => EndOfInput
    case Halt(Failed(e)) => e
  }

  /** `e` is an error that parsing from token `i` may raise: a syntax error
      naming a real token at or after `i`, the end of input, or the lexer's
      error. */
  predicate Reported(s: Lexed, i: nat, e: Error) {
    || (exists k :: i <= k < |s.tokens| && e == SyntaxError(s.tokens[k].value, s.tokens[k].pos))
    || (e == EndOfInput && s.stop == Finished)
    || s.stop == Failed(e)
  }

  /** The comparison operator a token kind denotes, if any. */
  function ComparisonOp(k: Kind): (r: Option<CmpOp>)
    ensures r.Some? <==> k in {EQUAL, NOTEQUAL, GREATEREQUAL, GREATER, LESSEQUAL, LESS}
  {
    match k
    case EQUAL => Some(Eq)
    case NOTEQUAL => Some(NotEq)
    case GREATEREQUAL => Some(Gte)
    case GREATER => Some(Gt)
    case LESSEQUAL => Some(Lte)
    case LESS => Some(Lt)
    case _ => None
  }

  /** The four operators whose right operand must be an INTEGER token. */
  predicate Ordering(op: CmpOp) {
    op in {Gte, Gt, Lte, Lt}
  }

  /** The trees the grammar can produce: ordering comparisons on integers,
      non-empty membership lists. */
  predicate Printable(e: Expr) {
    match e
    case Compare(_, op, v) => Ordering(op) ==> v.Int?
    case Member(_, items) => |items| > 0
    case Conj(l, r) => Printable(l) && Printable(r)
    case Disj(l, r) => Printable(l) && Printable(r)
    case Negation(inner) => Printable(inner)
  }

  function Expect(s: Lexed, i: nat, kind: Kind): (r: Result<nat, Error>)
    requires i <= |s.tokens|
    ensures r.Success? <==> i < |s.tokens| && s.tokens[i].kind == kind
    ensures r.Success? ==> r.value == i + 1
    ensures r.Failure? ==> Reported(s, i, r.error)
    ensures r.Failure? && i < |s.tokens| ==> r.error == SyntaxError(s.tokens[i].value, s.tokens[i].pos)
    ensures i == |s.tokens| ==> r == Failure(if s.stop.Failed? then s.stop.error else EndOfInput)
  {
    var a := Peek(s, i);
    if a.Tok? && a.t.kind == kind then Success(i + 1) else Failure(Reject(a))
  }

  /** `value : STRING | INTEGER`, or just INTEGER when `numeric`. */
  function ParseValue(s: Lexed, i: nat, numeric: bool): (r: Result<Value, Error>)
    requires i <= |s.tokens|
    ensures r.Success? <==> i < |s.tokens| && s.tokens[i].kind in (if numeric then {INTEGER} else {STRING, INTEGER})
    ensures r.Success? ==> r.value == s.tokens[i].value
    ensures r.Failure? ==> Reported(s, i, r.error)
    ensures r.Failure? && i < |s.tokens| ==> r.error == SyntaxError(s.tokens[i].value, s.tokens[i].pos)
    ensures i == |s.tokens| ==> r == Failure(if s.stop.Failed? then s.stop.error else EndOfInput)
  {
    var a := Peek(s, i);
    if a.Tok? && (a.t.kind == INTEGER || (!numeric && a.t.kind == STRING)) then Success(a.t.value)
    else Failure(Reject(a))
  }

  /** Tokens `i`, `i + 2`, ... carry the values `items`, in order, and
      the tokens between them are commas. */
  predicate ListAt(ts: seq<Token>, i: nat, items: seq<Value>)
    decreases |items|
  {
    && 0 < |items|
    && i + 2 * |items| - 1 <= |ts|
    && ts[i].kind in {STRING, INTEGER} && ts[i].value == items[0]
    && (|items| > 1 ==> ts[i + 1].kind == COMMA && ListAt(ts, i + 2, items[1..]))
  }

  /** `list : list ',' value | value`: one or more values separated by
      commas, collected in input order. */
  function ParseList(s: Lexed, i: nat): (r: Result<Parsed<seq<Value>>, Error>)
    requires i <= |s.tokens|
    ensures r.Success? ==> |r.value.tree| > 0 && r.value.next == i + 2 * |r.value.tree| - 1 <= |s.tokens|
    ensures r.Success? ==> ListAt(s.tokens, i, r.value.tree)
    ensures r.Success? ==> r.value.next == |s.tokens| || s.tokens[r.value.next].kind != COMMA
    ensures r.Failure? ==> Reported(s, i, r.error)
    decreases |s.tokens| - i
  {
    var v :- ParseValue(s, i, false);
    if i + 1 < |s.tokens| && s.tokens[i + 1].kind == COMMA then
      var rest :- ParseList(s, i + 2);
      assert ([v] + rest.tree)[1..] == rest.tree;
      Success(Parsed([v] + rest.tree, rest.next))
    else Success(Parsed([v], i + 1))
  }

  /** `rule`: a comparison or a membership test on the attribute token `i`. */
  function ParseRule(s: Lexed, i: nat): (r: Result<Parsed<Expr>, Error>)
    requires i < |s.tokens| && AllWellformed(s.tokens) && s.tokens[i].kind == ATTRIBUTE
    ensures r.Success? ==> i + 3 <= r.value.next <= |s.tokens|
    ensures r.Success? ==> (r.value.tree.Compare? || r.value.tree.Member?) && r.value.tree.attr == s.tokens[i].value.s
    ensures r.Success? && r.value.tree.Compare? ==> r.value.tree.value == s.tokens[i + 2].value
    ensures r.Success? && r.value.tree.Compare? && Ordering(r.value.tree.op) ==> r.value.tree.value.Int?
    ensures r.Success? ==> Printable(r.value.tree)
    ensures r.Failure? ==> Reported(s, i, r.error)
  {
    assert Wellformed(s.tokens[i]);
    var attr := s.tokens[i].value.s;
    var a := Peek(s, i + 1);
    if a.Halt? then Failure(Reject(a))
    else match ComparisonOp(a.t.kind)
      case Some(op) =>
        var v :- ParseValue(s, i + 2, Ordering(op));
        assert Wellformed(s.tokens[i + 2]);
        Success(Parsed(Compare(attr, op, v), i + 3))
      case None =>
        if a.t.kind == IN then
          var open :- Expect(s, i + 2, LBRACKET);
          var items :- ParseList(s, open);
          var close :- Expect(s, items.next, RBRACKET);
          Success(Parsed(Member(attr, items.tree), close))
        else Failure(Reject(a))
  }

  /** The operands of `and`: a rule, `not` applied to an operand, or a
      parenthesised expression. */
  function ParseUnary(s: Lexed, i: nat): (r: Result<Parsed<Expr>, Error>)
    requires i <= |s.tokens| && AllWellformed(s.tokens)
    ensures r.Success? ==> i < r.value.next <= |s.tokens| && Printable(r.value.tree)
    ensures r.Failure? ==> Reported(s, i, r.error)
    decreases |s.tokens| - i, 0
  {
    var a := Peek(s, i);
    if a.Tok? && a.t.kind == NOT then
      var e :- ParseUnary(s, i + 1);
      Success(Parsed(Negation(e.tree), e.next))
    else if a.Tok? && a.t.kind == LPAREN then
      var e :- ParseOr(s, i + 1);
      var close :- Expect(s, e.next, RPAREN);
      Success(Parsed(e.tree, close))
    else if a.Tok? && a.t.kind == ATTRIBUTE then ParseRule(s, i)
    else Failure(Reject(a))
  }

  /** `expression AND expression`, left-associative, over operands. */
  function ParseAnd(s: Lexed, i: nat): (r: Result<Parsed<Expr>, Error>)
    requires i <= |s.tokens| && AllWellformed(s.tokens)
    ensures r.Success? ==> i < r.value.next <= |s.tokens| && Printable(r.value.tree)
    ensures r.Success? ==> r.value.next == |s.tokens| || s.tokens[r.value.next].kind != AND
    ensures r.Failure? ==> Reported(s, i, r.error)
    decreases |s.tokens| - i, 1
  {
    var first :- ParseUnary(s, i);
    ParseAndRest(s, first.tree, first.next)
  }

  /** Continues a conjunction whose left part `acc` ends before token `i`. */
  function ParseAndRest(s: Lexed, acc: Expr, i: nat): (r: Result<Parsed<Expr>, Error>)
    requires i <= |s.tokens| && AllWellformed(s.tokens)
    ensures r.Success? ==> i <= r.value.next <= |s.tokens|
    ensures r.Success? && Printable(acc) ==> Printable(r.value.tree)
    ensures r.Success? ==> r.value.next == |s.tokens| || s.tokens[r.value.next].kind != AND
    ensures r.Failure? ==> Reported(s, i, r.error)
    decreases |s.tokens| - i, 0
  {
    if i < |s.tokens| && s.tokens[i].kind == AND then
      var right :- ParseUnary(s, i + 1);
      ParseAndRest(s, Conj(acc, right.tree), right.next)
    else Success(Parsed(acc, i))
  }

  /** `expression OR expression`, left-associative, over conjunctions. */
  function ParseOr(s: Lexed, i: nat): (r: Result<Parsed<Expr>, Error>)
    requires i <= |s.tokens| && AllWellformed(s.tokens)
    ensures r.Success? ==> i < r.value.next <= |s.tokens| && Printable(r.value.tree)
    ensures r.Success? ==> r.value.next == |s.tokens| || s.tokens[r.value.next].kind !in {AND, OR}
    ensures r.Failure? ==> Reported(s, i, r.error)
    decreases |s.tokens| - i, 2
  {
    var first :- ParseAnd(s, i);
    ParseOrRest(s, first.tree, first.next)
  }

  /** Continues a disjunction whose left part `acc` ends before token `i`. */
  function ParseOrRest(s: Lexed, acc: Expr, i: nat): (r: Result<Parsed<Expr>, Error>)
    requires i <= |s.tokens| && AllWellformed(s.tokens)
    requires i == |s.tokens| || s.tokens[i].kind != AND
    ensures r.Success? ==> i <= r.value.next <= |s.tokens|
    ensures r.Success? && Printable(acc) ==> Printable(r.value.tree)
    ensures r.Success? ==> r.value.next == |s.tokens| || s.tokens[r.value.next].kind !in {AND, OR}
    ensures r.Failure? ==> Reported(s, i, r.error)
    decreases |s.tokens| - i, 0
  {
    if i < |s.tokens| && s.tokens[i].kind == OR then
      var right :- ParseAnd(s, i + 1);
      ParseOrRest(s, Disj(acc, right.tree), right.next)
    else Success(Parsed(acc, i))
  }

  /** `filter : expression`, followed by the end of the input. Success
      needs every token consumed and the lexer to have reached the end of
      the text; no partial tree is ever returned. */
  function ParseFilter(s: Lexed): (r: Result<Expr, Error>)
    requires AllWellformed(s.tokens)
    ensures r.Success? ==> s.stop == Finished && Printable(r.value)
    ensures r.Success? ==> ParseOr(s, 0) == Success(Parsed(r.value, |s.tokens|))
    ensures s.stop.Failed? && r.Failure? && !r.error.SyntaxError? ==> s.stop == Failed(r.error)
    ensures r.Failure? ==> Reported(s, 0, r.error)
  {
    var e :- ParseOr(s, 0);
    var a := Peek(s, e.next);
    if a == Halt(Finished) then Success(e.tree) else Failure(Reject(a))
  }
}
