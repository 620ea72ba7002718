/** A printer for parse trees and the properties that tie the parser to it:
    printing a tree and parsing the tokens gives the tree back, and the
    parser groups unparenthesised `and`/`or`/`not` by the precedence table. */
module GrammarFacts {
  import opened Wrappers
  import opened Tokens
  import opened Lexer
  import opened Grammar

  /** Token kind of a value: STRING for a string, INTEGER for a number. */
  function ValueKind(v: Value): Kind {
    if v.Int? then INTEGER else STRING
  }

  function OpKind(op: CmpOp): Kind {
    match op
    case Eq => EQUAL
    case NotEq => NOTEQUAL
    case Gte => GREATEREQUAL
    case Gt => GREATER
    case Lte => LESSEQUAL
    case Lt => LESS
  }

  /** A token for an operator or punctuation kind. */
  function Punct(k: Kind): Token {
    Token(k, Str(Spelling(k)), 0)
  }

  function ValueTokens(vs: seq<Value>): seq<Token> {
    if |vs| == 0 then []
    else if |vs| == 1 then [Token(ValueKind(vs[0]), vs[0], 0)]
    else [Token(ValueKind(vs[0]), vs[0], 0), Punct(COMMA)] + ValueTokens(vs[1..])
  }

  /** `( l op r )` */
  function Wrap(l: seq<Token>, op: Kind, r: seq<Token>): seq<Token> {
    [Punct(LPAREN)] + (l + [Punct(op)] + r) + [Punct(RPAREN)]
  }

  /** Prints a tree as an operand of `and`: every `and`/`or` node in
      parentheses, `not` in front of its operand. */
  function Print(e: Expr): seq<Token> {
    match e
    case Compare(attr, op, v) => [Token(ATTRIBUTE, Str(attr), 0), Punct(OpKind(op)), Token(ValueKind(v), v, 0)]
    case Member(attr, items) =>
      [Token(ATTRIBUTE, Str(attr), 0), Punct(IN), Punct(LBRACKET)] + ValueTokens(items) + [Punct(RBRACKET)]
    case Conj(l, r) => Wrap(Print(l), AND, Print(r))
    case Disj(l, r) => Wrap(Print(l), OR, Print(r))
    case Negation(inner) => [Punct(NOT)] + Print(inner)
  }

  // ----- one token sequence inside another ---------------------------------

  /** `u` holds `ts` from index `d` on. */
  predicate Embeds(u: seq<Token>, d: nat, ts: seq<Token>) {
    d + |ts| <= |u| && u[d..d + |ts|] == ts
  }

  lemma EmbedsConcat(a: seq<Token>, b: seq<Token>)
    ensures Embeds(a + b, 0, a) && Embeds(a + b, |a|, b)
  {
    assert (a + b)[0..|a|] == a;
    assert (a + b)[|a|..|a| + |b|] == b;
  }

  lemma EmbedsTrans(u: seq<Token>, d: nat, v: seq<Token>, d2: nat, w: seq<Token>)
    requires Embeds(u, d, v) && Embeds(v, d2, w)
    ensures Embeds(u, d + d2, w)
  {
    forall k | 0 <= k < |w|
      ensures u[d + d2 + k] == w[k]
    {
      assert w[k] == v[d2..d2 + |w|][k] == v[d2 + k];
      assert v[d2 + k] == u[d..d + |v|][d2 + k] == u[d + (d2 + k)];
    }
    assert u[d + d2..d + d2 + |w|] == w;
  }

  /** Where the parts of `( l op r )` lie. */
  lemma WrapEmbeds(l: seq<Token>, op: Kind, r: seq<Token>)
    ensures |Wrap(l, op, r)| == |l| + |r| + 3
    ensures Wrap(l, op, r)[0] == Punct(LPAREN)
    ensures Embeds(Wrap(l, op, r), 1, l)
    ensures Wrap(l, op, r)[1 + |l|] == Punct(op)
    ensures Embeds(Wrap(l, op, r), 1 + |l| + 1, r)
    ensures Wrap(l, op, r)[|l| + |r| + 2] == Punct(RPAREN)
  {
    var w := Wrap(l, op, r);
    var mid := l + [Punct(op)] + r;
    EmbedsConcat([Punct(LPAREN)] + mid, [Punct(RPAREN)]);
    EmbedsConcat([Punct(LPAREN)], mid);
    EmbedsTrans(w, 0, [Punct(LPAREN)] + mid, 1, mid);
    EmbedsConcat(l + [Punct(op)], r);
    EmbedsConcat(l, [Punct(op)]);
    EmbedsTrans(w, 1, mid, 0, l + [Punct(op)]);
    EmbedsTrans(w, 1, l + [Punct(op)], 0, l);
    EmbedsTrans(w, 1, mid, |l| + 1, r);
    assert w[1 + |l|] == (l + [Punct(op)])[|l|];
  }

  // ----- the token layout of a tree -----------------------------------------

  /** The number of tokens `Print` spends on a tree. */
  function Width(e: Expr): nat {
    match e
    case Compare(_, _, _) => 3
    case Member(_, items) => 2 * |items| + 3
    case Conj(l, r) => Width(l) + Width(r) + 3
    case Disj(l, r) => Width(l) + Width(r) + 3
    case Negation(inner) => Width(inner) + 1
  }

  /** Tokens `i` up to (not including) `n` of `ts` spell `e` as `Print`
      lays it out, described token by token. The layout itself is
      `Layout`; this extra step keeps a proof that only passes a subtree's
      layout along from unfolding it. */
  predicate Spans(ts: seq<Token>, i: nat, e: Expr, n: nat)
    decreases Width(e), 2
  {
    i < n <= |ts| && Layout(ts, i, e, n)
  }

  predicate Layout(ts: seq<Token>, i: nat, e: Expr, n: nat)
    decreases Width(e), 1
  {
    match e
    case Compare(attr, op, v) =>
      && n == i + 3 && n <= |ts|
      && ts[i].kind == ATTRIBUTE && ts[i].value == Str(attr)
      && ts[i + 1].kind == OpKind(op)
      && ts[i + 2].kind == ValueKind(v) && ts[i + 2].value == v
      && (Ordering(op) ==> v.Int?)
    case Member(attr, items) =>
      && n == i + 3 + 2 * |items| && n <= |ts|
      && ts[i].kind == ATTRIBUTE && ts[i].value == Str(attr)
      && ts[i + 1].kind == IN && ts[i + 2].kind == LBRACKET
      && ListAt(ts, i + 3, items)
      && ts[n - 1].kind == RBRACKET
    case Conj(l, r) => Framed(ts, i, l, AND, r, n)
    case Disj(l, r) => Framed(ts, i, l, OR, r, n)
    case Negation(inner) =>
      i < |ts| && ts[i].kind == NOT && Spans(ts, i + 1, inner, n)
  }

  /** Tokens `i` up to `n` are `( l op r )`. */
  predicate Framed(ts: seq<Token>, i: nat, l: Expr, op: Kind, r: Expr, n: nat)
    decreases Width(l) + Width(r) + 3, 0
  {
    && n == i + 1 + Width(l) + 1 + Width(r) + 1 && n <= |ts|
    && ts[i].kind == LPAREN && ts[i + 1 + Width(l)].kind == op && ts[n - 1].kind == RPAREN
    && Spans(ts, i + 1, l, i + 1 + Width(l)) && Spans(ts, i + 1 + Width(l) + 1, r, n - 1)
  }

  // ----- moving a layout into a larger sequence -----------------------------

  lemma {:induction false} ListAtShift(ts: seq<Token>, u: seq<Token>, d: nat, i: nat, items: seq<Value>)
    requires Embeds(u, d, ts) && ListAt(ts, i, items)
    ensures ListAt(u, d + i, items)
    decreases |items|
  {
    assert u[d + i] == ts[i];
    if |items| > 1 {
      assert u[d + (i + 1)] == ts[i + 1];
      ListAtShift(ts, u, d, i + 2, items[1..]);
    }
  }

  /** A tree laid out in `ts` is laid out the same way wherever `ts` is
      embedded. */
  lemma {:induction false} SpansShift(ts: seq<Token>, u: seq<Token>, d: nat, i: nat, e: Expr, n: nat)
    requires Embeds(u, d, ts) && Spans(ts, i, e, n)
    ensures Spans(u, d + i, e, d + n)
    decreases Width(e), 1
  {
    assert Layout(ts, i, e, n);
    match e
    case Compare(_, _, _) =>
      assert u[d + i] == ts[i];
      assert u[d + (i + 1)] == ts[i + 1];
      assert u[d + (i + 2)] == ts[i + 2];
    case Member(_, items) =>
      ListAtShift(ts, u, d, i + 3, items);
      assert u[d + i] == ts[i];
      assert u[d + (i + 1)] == ts[i + 1];
      assert u[d + (i + 2)] == ts[i + 2];
      assert u[d + (n - 1)] == ts[n - 1];
    case Conj(l, r) => FramedShift(ts, u, d, i, l, AND, r, n);
    case Disj(l, r) => FramedShift(ts, u, d, i, l, OR, r, n);
    case Negation(inner) =>
      assert u[d + i] == ts[i];
      SpansShift(ts, u, d, i + 1, inner, n);
  }

  lemma {:induction false} FramedShift(ts: seq<Token>, u: seq<Token>, d: nat, i: nat, l: Expr, op: Kind, r: Expr, n: nat)
    requires Embeds(u, d, ts) && Framed(ts, i, l, op, r, n)
    ensures Framed(u, d + i, l, op, r, d + n)
    decreases Width(l) + Width(r) + 3, 0
  {
    SpansShift(ts, u, d, i + 1, l, i + 1 + Width(l));
    SpansShift(ts, u, d, i + 1 + Width(l) + 1, r, n - 1);
    assert u[d + i] == ts[i];
    assert u[d + (i + 1 + Width(l))] == ts[i + 1 + Width(l)];
    assert u[d + (n - 1)] == ts[n - 1];
  }

  // ----- how Print lays a tree out ------------------------------------------

  lemma ComparisonOpOfKind(op: CmpOp)
    ensures ComparisonOp(OpKind(op)) == Some(op)
  {
  }

  /** A printed value list is laid out as `ListAt` describes it. */
  lemma {:induction false} ValueTokensListAt(items: seq<Value>)
    requires |items| > 0
    ensures |ValueTokens(items)| == 2 * |items| - 1
    ensures ListAt(ValueTokens(items), 0, items)
    decreases |items|
  {
    if |items| > 1 {
      var head := [Token(ValueKind(items[0]), items[0], 0), Punct(COMMA)];
      var rest := ValueTokens(items[1..]);
      ValueTokensListAt(items[1..]);
      assert ValueTokens(items) == head + rest;
      EmbedsConcat(head, rest);
      ListAtShift(rest, ValueTokens(items), 2, 0, items[1..]);
    }
  }

  lemma MemberSpans(e: Expr)
    requires e.Member? && Printable(e)
    ensures |Print(e)| == Width(e) && Spans(Print(e), 0, e, Width(e))
  {
    var vt := ValueTokens(e.items);
    var head := [Token(ATTRIBUTE, Str(e.attr), 0), Punct(IN), Punct(LBRACKET)];
    assert Print(e) == head + vt + [Punct(RBRACKET)];
    ValueTokensListAt(e.items);
    EmbedsConcat(head + vt, [Punct(RBRACKET)]);
    EmbedsConcat(head, vt);
    EmbedsTrans(Print(e), 0, head + vt, 3, vt);
    ListAtShift(vt, Print(e), 3, 0, e.items);
    assert Layout(Print(e), 0, e, Width(e));
  }

  /** Laid-out operands placed as in `( l op r )` make a `Framed` layout. */
  lemma FramedWrap(w: seq<Token>, lt: seq<Token>, l: Expr, op: Kind, rt: seq<Token>, r: Expr)
    requires |w| == 1 + Width(l) + 1 + Width(r) + 1
    requires w[0].kind == LPAREN && w[1 + Width(l)].kind == op && w[|w| - 1].kind == RPAREN
    requires Spans(lt, 0, l, Width(l)) && Embeds(w, 1, lt)
    requires Spans(rt, 0, r, Width(r)) && Embeds(w, 1 + Width(l) + 1, rt)
    ensures Framed(w, 0, l, op, r, |w|)
  {
    SpansShift(lt, w, 1, 0, l, Width(l));
    SpansShift(rt, w, 1 + Width(l) + 1, 0, r, Width(r));
  }

  /** Laid-out operands, wrapped as `( l op r )`, make a `Framed` layout. */
  lemma WrapFramed(lt: seq<Token>, l: Expr, op: Kind, rt: seq<Token>, r: Expr)
    requires |lt| == Width(l) && Spans(lt, 0, l, Width(l))
    requires |rt| == Width(r) && Spans(rt, 0, r, Width(r))
    ensures |Wrap(lt, op, rt)| == Width(l) + Width(r) + 3
    ensures Framed(Wrap(lt, op, rt), 0, l, op, r, Width(l) + Width(r) + 3)
  {
    WrapEmbeds(lt, op, rt);
    FramedWrap(Wrap(lt, op, rt), lt, l, op, rt, r);
  }

  /** The kind of the operator token `Print` writes for a binary node. */
  function Connective(e: Expr): Kind
    requires e.Conj? || e.Disj?
  {
    if e.Conj? then AND else OR
  }

  /** A printed `and`/`or` node is laid out as `Spans` describes. */
  lemma {:induction false} BinarySpans(e: Expr)
    requires (e.Conj? || e.Disj?) && Printable(e)
    ensures |Print(e)| == Width(e) && Spans(Print(e), 0, e, Width(e))
    decreases Width(e), 1
  {
    PrintSpans(e.left);
    PrintSpans(e.right);
    assert Print(e) == Wrap(Print(e.left), Connective(e), Print(e.right));
    WrapFramed(Print(e.left), e.left, Connective(e), Print(e.right), e.right);
    assert Layout(Print(e), 0, e, Width(e));
  }

  lemma {:induction false} NegationSpans(e: Expr)
    requires e.Negation? && Printable(e)
    ensures |Print(e)| == Width(e) && Spans(Print(e), 0, e, Width(e))
    decreases Width(e), 1
  {
    PrintSpans(e.inner);
    EmbedsConcat([Punct(NOT)], Print(e.inner));
    SpansShift(Print(e.inner), Print(e), 1, 0, e.inner, Width(e.inner));
    assert Layout(Print(e), 0, e, Width(e));
  }

  /** Printed tokens lay a tree out as `Spans` describes. */
  lemma {:induction false} PrintSpans(e: Expr)
    requires Printable(e)
    ensures |Print(e)| == Width(e) && Spans(Print(e), 0, e, Width(e))
    decreases Width(e), 2
  {
    match e
    case Compare(_, _, _) =>
      assert Layout(Print(e), 0, e, Width(e));
    case Member(_, _) => MemberSpans(e);
    case Conj(_, _) => BinarySpans(e);
    case Disj(_, _) => BinarySpans(e);
    case Negation(_) => NegationSpans(e);
  }

  // ----- single steps of the parser -----------------------------------------

  /** Values separated by commas, up to a token that is not a comma,
      parse as exactly that list. */
  lemma {:induction false} ListParses(s: Lexed, i: nat, items: seq<Value>, n: nat)
    requires ListAt(s.tokens, i, items) && n == i + 2 * |items| - 1
    requires n == |s.tokens| || s.tokens[n].kind != COMMA
    ensures ParseList(s, i) == Success(Parsed(items, n))
    decreases |items|
  {
    assert ParseValue(s, i, false) == Success(items[0]);
    if |items| == 1 {
      assert items == [items[0]];
    } else {
      ListParses(s, i + 2, items[1..], n);
      assert [items[0]] + items[1..] == items;
    }
  }

  lemma CompareCase(s: Lexed, i: nat, e: Expr, n: nat)
    requires AllWellformed(s.tokens) && e.Compare? && Spans(s.tokens, i, e, n)
    ensures ParseUnary(s, i) == Success(Parsed(e, n))
  {
    assert Layout(s.tokens, i, e, n);
    ComparisonOpOfKind(e.op);
    assert ParseValue(s, i + 2, Ordering(e.op)) == Success(e.value);
    assert ParseRule(s, i) == Success(Parsed(e, i + 3));
  }

  /** The rule `attr in [ items ]` with `]` at `c`, given how the list
      parses. */
  lemma MemberStep(s: Lexed, i: nat, attr: string, items: seq<Value>, c: nat)
    requires AllWellformed(s.tokens) && i + 3 <= |s.tokens|
    requires s.tokens[i].kind == ATTRIBUTE && s.tokens[i].value == Str(attr)
    requires s.tokens[i + 1].kind == IN && s.tokens[i + 2].kind == LBRACKET
    requires ParseList(s, i + 3) == Success(Parsed(items, c))
    requires c < |s.tokens| && s.tokens[c].kind == RBRACKET
    ensures ParseRule(s, i) == Success(Parsed(Member(attr, items), c + 1))
  {
    assert Expect(s, i + 2, LBRACKET) == Success(i + 3);
  }

  /** An operand that starts with an attribute is a rule. */
  lemma RuleStep(s: Lexed, i: nat, e: Expr, c: nat)
    requires AllWellformed(s.tokens) && i < |s.tokens| && s.tokens[i].kind == ATTRIBUTE
    requires ParseRule(s, i) == Success(Parsed(e, c))
    ensures ParseUnary(s, i) == Success(Parsed(e, c))
  {
  }

  /** `attr in [ items ]` laid out with `]` at `c`. */
  lemma MemberParts(s: Lexed, i: nat, attr: string, items: seq<Value>, c: nat)
    requires AllWellformed(s.tokens) && i + 3 <= |s.tokens|
    requires s.tokens[i].kind == ATTRIBUTE && s.tokens[i].value == Str(attr)
    requires s.tokens[i + 1].kind == IN && s.tokens[i + 2].kind == LBRACKET
    requires ListAt(s.tokens, i + 3, items) && c == i + 3 + 2 * |items| - 1
    requires c < |s.tokens| && s.tokens[c].kind == RBRACKET
    ensures ParseUnary(s, i) == Success(Parsed(Member(attr, items), c + 1))
  {
    ListParses(s, i + 3, items, c);
    MemberStep(s, i, attr, items, c);
    RuleStep(s, i, Member(attr, items), c + 1);
  }

  lemma MemberCase(s: Lexed, i: nat, e: Expr, n: nat)
    requires AllWellformed(s.tokens) && e.Member? && Spans(s.tokens, i, e, n)
    ensures ParseUnary(s, i) == Success(Parsed(e, n))
  {
    assert Layout(s.tokens, i, e, n);
    MemberParts(s, i, e.attr, e.items, n - 1);
    assert e == Member(e.attr, e.items);
  }

  /** A conjunction or disjunction stops at a token that does not continue it. */
  lemma RestStops(s: Lexed, acc: Expr, q: nat)
    requires AllWellformed(s.tokens) && q <= |s.tokens| && (q == |s.tokens| || s.tokens[q].kind != AND)
    ensures ParseAndRest(s, acc, q) == Success(Parsed(acc, q))
    ensures q == |s.tokens| || s.tokens[q].kind != OR ==> ParseOrRest(s, acc, q) == Success(Parsed(acc, q))
  {
  }

  lemma AndRestStep(s: Lexed, acc: Expr, p: nat, r: Expr, q: nat)
    requires AllWellformed(s.tokens) && p < |s.tokens| && s.tokens[p].kind == AND
    requires ParseUnary(s, p + 1) == Success(Parsed(r, q))
    ensures ParseAndRest(s, acc, p) == ParseAndRest(s, Conj(acc, r), q)
  {
  }

  lemma OrRestStep(s: Lexed, acc: Expr, p: nat, r: Expr, q: nat)
    requires AllWellformed(s.tokens) && p < |s.tokens| && s.tokens[p].kind == OR
    requires ParseAnd(s, p + 1) == Success(Parsed(r, q))
    ensures ParseOrRest(s, acc, p) == ParseOrRest(s, Disj(acc, r), q)
  {
  }

  /** An operand followed by a token other than `and` is a whole
      conjunction. */
  lemma AndFromUnary(s: Lexed, i: nat, e: Expr, q: nat)
    requires AllWellformed(s.tokens) && i <= |s.tokens|
    requires ParseUnary(s, i) == Success(Parsed(e, q))
    requires q == |s.tokens| || s.tokens[q].kind != AND
    ensures ParseAnd(s, i) == Success(Parsed(e, q))
  {
    RestStops(s, e, q);
  }

  lemma OrFromAnd(s: Lexed, i: nat, e: Expr, q: nat)
    requires AllWellformed(s.tokens) && i <= |s.tokens|
    requires ParseAnd(s, i) == Success(Parsed(e, q))
    ensures ParseOr(s, i) == ParseOrRest(s, e, q)
  {
  }

  lemma GroupStep(s: Lexed, i: nat, e: Expr, q: nat)
    requires AllWellformed(s.tokens) && i < |s.tokens| && s.tokens[i].kind == LPAREN
    requires ParseOr(s, i + 1) == Success(Parsed(e, q))
    requires q < |s.tokens| && s.tokens[q].kind == RPAREN
    ensures ParseUnary(s, i) == Success(Parsed(e, q + 1))
  {
  }

  /** `l and r` followed by a token that continues neither a conjunction
      nor a disjunction. */
  lemma ConjInner(s: Lexed, i: nat, l: Expr, p: nat, r: Expr, q: nat)
    requires AllWellformed(s.tokens) && i <= |s.tokens|
    requires ParseUnary(s, i) == Success(Parsed(l, p))
    requires p < |s.tokens| && s.tokens[p].kind == AND
    requires ParseUnary(s, p + 1) == Success(Parsed(r, q))
    requires q < |s.tokens| && s.tokens[q].kind !in {AND, OR}
    ensures ParseOr(s, i) == Success(Parsed(Conj(l, r), q))
  {
    AndRestStep(s, l, p, r, q);
    RestStops(s, Conj(l, r), q);
    assert ParseAnd(s, i) == Success(Parsed(Conj(l, r), q));
    OrFromAnd(s, i, Conj(l, r), q);
  }

  /** `l or r` followed by a token that continues neither. */
  lemma DisjInner(s: Lexed, i: nat, l: Expr, p: nat, r: Expr, q: nat)
    requires AllWellformed(s.tokens) && i <= |s.tokens|
    requires ParseAnd(s, i) == Success(Parsed(l, p))
    requires p < |s.tokens| && s.tokens[p].kind == OR
    requires ParseAnd(s, p + 1) == Success(Parsed(r, q))
    requires q < |s.tokens| && s.tokens[q].kind !in {AND, OR}
    ensures ParseOr(s, i) == Success(Parsed(Disj(l, r), q))
  {
    OrRestStep(s, l, p, r, q);
    RestStops(s, Disj(l, r), q);
    OrFromAnd(s, i, l, p);
  }

  // ----- the round trip ----------------------------------------------------

  /** A laid-out tree followed by a token other than `and` is a whole
      conjunction. */
  lemma {:induction false} SpansAnd(s: Lexed, i: nat, e: Expr, n: nat)
    requires AllWellformed(s.tokens) && Spans(s.tokens, i, e, n)
    requires n == |s.tokens| || s.tokens[n].kind != AND
    ensures ParseAnd(s, i) == Success(Parsed(e, n))
    decreases e, 4
  {
    SpansParses(s, i, e, n);
    AndFromUnary(s, i, e, n);
  }

  /** `l and r` laid out with `and` at `p`, followed by a token that
      continues neither a conjunction nor a disjunction. */
  lemma {:induction false} ConjOperands(s: Lexed, i: nat, l: Expr, p: nat, r: Expr, q: nat)
    requires AllWellformed(s.tokens)
    requires Spans(s.tokens, i, l, p) && p < |s.tokens| && s.tokens[p].kind == AND && Spans(s.tokens, p + 1, r, q)
    requires q < |s.tokens| && s.tokens[q].kind !in {AND, OR}
    ensures ParseOr(s, i) == Success(Parsed(Conj(l, r), q))
    decreases Conj(l, r), 0
  {
    SpansParses(s, i, l, p);
    SpansParses(s, p + 1, r, q);
    ConjInner(s, i, l, p, r, q);
  }

  /** `l or r` laid out with `or` at `p`, followed by a token that
      continues neither. */
  lemma {:induction false} DisjOperands(s: Lexed, i: nat, l: Expr, p: nat, r: Expr, q: nat)
    requires AllWellformed(s.tokens)
    requires Spans(s.tokens, i, l, p) && p < |s.tokens| && s.tokens[p].kind == OR && Spans(s.tokens, p + 1, r, q)
    requires q < |s.tokens| && s.tokens[q].kind !in {AND, OR}
    ensures ParseOr(s, i) == Success(Parsed(Disj(l, r), q))
    decreases Disj(l, r), 0
  {
    SpansAnd(s, i, l, p);
    SpansAnd(s, p + 1, r, q);
    DisjInner(s, i, l, p, r, q);
  }

  lemma {:induction false} NegationParts(s: Lexed, i: nat, inner: Expr, n: nat)
    requires AllWellformed(s.tokens)
    requires i < |s.tokens| && s.tokens[i].kind == NOT && Spans(s.tokens, i + 1, inner, n)
    ensures ParseUnary(s, i) == Success(Parsed(Negation(inner), n))
    decreases Negation(inner), 0
  {
    SpansParses(s, i + 1, inner, n);
  }

  /** `( l and r )` laid out from `i` to `n` parses as a parenthesised
      operand. */
  lemma {:induction false} ConjGroup(s: Lexed, i: nat, l: Expr, r: Expr, n: nat)
    requires AllWellformed(s.tokens) && Framed(s.tokens, i, l, AND, r, n)
    ensures ParseUnary(s, i) == Success(Parsed(Conj(l, r), n))
    decreases Conj(l, r), 1
  {
    ConjOperands(s, i + 1, l, i + 1 + Width(l), r, n - 1);
    GroupStep(s, i, Conj(l, r), n - 1);
  }

  lemma {:induction false} ConjCase(s: Lexed, i: nat, e: Expr, n: nat)
    requires AllWellformed(s.tokens) && e.Conj? && Spans(s.tokens, i, e, n)
    ensures ParseUnary(s, i) == Success(Parsed(e, n))
    decreases e, 2
  {
    assert Layout(s.tokens, i, e, n);
    ConjGroup(s, i, e.left, e.right, n);
    assert e == Conj(e.left, e.right);
  }

  /** `( l or r )` laid out from `i` to `n` parses as a parenthesised
      operand. */
  lemma {:induction false} DisjGroup(s: Lexed, i: nat, l: Expr, r: Expr, n: nat)
    requires AllWellformed(s.tokens) && Framed(s.tokens, i, l, OR, r, n)
    ensures ParseUnary(s, i) == Success(Parsed(Disj(l, r), n))
    decreases Disj(l, r), 1
  {
    DisjOperands(s, i + 1, l, i + 1 + Width(l), r, n - 1);
    GroupStep(s, i, Disj(l, r), n - 1);
  }

  lemma {:induction false} DisjCase(s: Lexed, i: nat, e: Expr, n: nat)
    requires AllWellformed(s.tokens) && e.Disj? && Spans(s.tokens, i, e, n)
    ensures ParseUnary(s, i) == Success(Parsed(e, n))
    decreases e, 2
  {
    assert Layout(s.tokens, i, e, n);
    DisjGroup(s, i, e.left, e.right, n);
    assert e == Disj(e.left, e.right);
  }

  lemma {:induction false} NegationCase(s: Lexed, i: nat, e: Expr, n: nat)
    requires AllWellformed(s.tokens) && e.Negation? && Spans(s.tokens, i, e, n)
    ensures ParseUnary(s, i) == Success(Parsed(e, n))
    decreases e, 2
  {
    assert Layout(s.tokens, i, e, n);
    NegationParts(s, i, e.inner, n);
    assert e == Negation(e.inner);
  }

  /** Tokens that lay out a printable tree parse back to it as an
      operand, wherever they stand in the token stream. */
  lemma {:induction false} SpansParses(s: Lexed, i: nat, e: Expr, n: nat)
    requires AllWellformed(s.tokens) && Spans(s.tokens, i, e, n)
    ensures ParseUnary(s, i) == Success(Parsed(e, n))
    decreases e, 3
  {
    match e
    case Compare(_, _, _) => CompareCase(s, i, e, n);
    case Member(_, _) => MemberCase(s, i, e, n);
    case Conj(_, _) => ConjCase(s, i, e, n);
    case Disj(_, _) => DisjCase(s, i, e, n);
    case Negation(_) => NegationCase(s, i, e, n);
  }

  /** Every token `Print` writes is well formed. */
  lemma {:induction false} PrintWellformed(e: Expr)
    ensures AllWellformed(Print(e))
    decreases Width(e), 1
  {
    match e
    case Compare(_, _, _) =>
    case Member(_, items) =>
      ValueTokensWellformed(items);
      ConcatWellformed([Token(ATTRIBUTE, Str(e.attr), 0), Punct(IN), Punct(LBRACKET)], ValueTokens(items));
      ConcatWellformed([Token(ATTRIBUTE, Str(e.attr), 0), Punct(IN), Punct(LBRACKET)] + ValueTokens(items), [Punct(RBRACKET)]);
    case Conj(l, r) => WrapWellformed(l, AND, r);
    case Disj(l, r) => WrapWellformed(l, OR, r);
    case Negation(inner) =>
      PrintWellformed(inner);
      ConcatWellformed([Punct(NOT)], Print(inner));
  }

  lemma {:induction false} WrapWellformed(l: Expr, op: Kind, r: Expr)
    requires op in {AND, OR}
    ensures AllWellformed(Wrap(Print(l), op, Print(r)))
    decreases Width(l) + Width(r) + 3, 0
  {
    PrintWellformed(l);
    PrintWellformed(r);
    ConcatWellformed(Print(l), [Punct(op)]);
    ConcatWellformed(Print(l) + [Punct(op)], Print(r));
    ConcatWellformed([Punct(LPAREN)], Print(l) + [Punct(op)] + Print(r));
    ConcatWellformed([Punct(LPAREN)] + (Print(l) + [Punct(op)] + Print(r)), [Punct(RPAREN)]);
  }

  lemma ConcatWellformed(a: seq<Token>, b: seq<Token>)
    requires AllWellformed(a) && AllWellformed(b)
    ensures AllWellformed(a + b)
  {
    forall k | 0 <= k < |a + b|
      ensures Wellformed((a + b)[k])
    {
      if k >= |a| {
        assert (a + b)[k] == b[k - |a|];
      }
    }
  }

  lemma {:induction false} ValueTokensWellformed(vs: seq<Value>)
    ensures AllWellformed(ValueTokens(vs))
    decreases |vs|
  {
    if |vs| > 1 {
      ValueTokensWellformed(vs[1..]);
      ConcatWellformed([Token(ValueKind(vs[0]), vs[0], 0), Punct(COMMA)], ValueTokens(vs[1..]));
    }
  }

  // ----- whole filters -----------------------------------------------------

  /** A disjunction that reaches the end of a completely lexed input is the
      filter. */
  lemma FilterFromOr(s: Lexed, e: Expr)
    requires AllWellformed(s.tokens) && s.stop == Finished
    requires ParseOr(s, 0) == Success(Parsed(e, |s.tokens|))
    ensures ParseFilter(s) == Success(e)
  {
  }

  /** Tokens that lay out a tree and nothing else parse to that tree. */
  lemma SpansFilter(s: Lexed, e: Expr)
    requires AllWellformed(s.tokens) && s.stop == Finished
    requires Spans(s.tokens, 0, e, |s.tokens|)
    ensures ParseFilter(s) == Success(e)
  {
    SpansAnd(s, 0, e, |s.tokens|);
    RestStops(s, e, |s.tokens|);
    OrFromAnd(s, 0, e, |s.tokens|);
    FilterFromOr(s, e);
  }

  /** Round trip: printing any tree the grammar can build and parsing the
      tokens gives the tree back. */
  lemma RoundTrip(e: Expr)
    requires Printable(e)
    ensures AllWellformed(Print(e))
    ensures ParseFilter(Lexed(Print(e), Finished)) == Success(e)
  {
    PrintSpans(e);
    PrintWellformed(e);
    SpansFilter(Lexed(Print(e), Finished), e);
  }

  /** A conjunction that reaches the end of a completely lexed input is
      the filter. */
  lemma AndAlone(s: Lexed, e: Expr)
    requires AllWellformed(s.tokens) && s.stop == Finished
    requires ParseAnd(s, 0) == Success(Parsed(e, |s.tokens|))
    ensures ParseFilter(s) == Success(e)
  {
    RestStops(s, e, |s.tokens|);
    OrFromAnd(s, 0, e, |s.tokens|);
    FilterFromOr(s, e);
  }

  /** `a and b` laid out from `i`: the conjunction goes on after `b` with
      `Conj(a, b)` as its left part. */
  lemma {:induction false} AndHead(s: Lexed, i: nat, a: Expr, p: nat, b: Expr, q: nat)
    requires AllWellformed(s.tokens)
    requires Spans(s.tokens, i, a, p) && p < |s.tokens| && s.tokens[p].kind == AND
    requires Spans(s.tokens, p + 1, b, q)
    ensures ParseAnd(s, i) == ParseAndRest(s, Conj(a, b), q)
  {
    SpansParses(s, i, a, p);
    SpansParses(s, p + 1, b, q);
    AndRestStep(s, a, p, b, q);
  }

  /** `and c` after a conjunction `acc`, with nothing joined by `and`
      after `c`. */
  lemma {:induction false} AndTail(s: Lexed, acc: Expr, q: nat, c: Expr, n: nat)
    requires AllWellformed(s.tokens)
    requires q < |s.tokens| && s.tokens[q].kind == AND && Spans(s.tokens, q + 1, c, n)
    requires n == |s.tokens| || s.tokens[n].kind != AND
    ensures ParseAndRest(s, acc, q) == Success(Parsed(Conj(acc, c), n))
  {
    SpansParses(s, q + 1, c, n);
    AndRestStep(s, acc, q, c, n);
    RestStops(s, Conj(acc, c), n);
  }

  /** `a and b` laid out from `i`, with nothing joined by `and` after it. */
  lemma AndOfTwo(s: Lexed, i: nat, a: Expr, p: nat, b: Expr, q: nat)
    requires AllWellformed(s.tokens)
    requires Spans(s.tokens, i, a, p) && p < |s.tokens| && s.tokens[p].kind == AND
    requires Spans(s.tokens, p + 1, b, q) && (q == |s.tokens| || s.tokens[q].kind != AND)
    ensures ParseAnd(s, i) == Success(Parsed(Conj(a, b), q))
  {
    AndHead(s, i, a, p, b, q);
    RestStops(s, Conj(a, b), q);
  }

  /** `a or b` laid out from the start, with no `and` after `b`: the
      disjunction goes on after `b` with `Disj(a, b)` as its left part. */
  lemma {:induction false} OrHead(s: Lexed, a: Expr, p: nat, b: Expr, q: nat)
    requires AllWellformed(s.tokens)
    requires Spans(s.tokens, 0, a, p) && p < |s.tokens| && s.tokens[p].kind == OR
    requires Spans(s.tokens, p + 1, b, q) && (q == |s.tokens| || s.tokens[q].kind != AND)
    ensures ParseOr(s, 0) == ParseOrRest(s, Disj(a, b), q)
  {
    SpansAnd(s, 0, a, p);
    SpansAnd(s, p + 1, b, q);
    OrRestStep(s, a, p, b, q);
    OrFromAnd(s, 0, a, p);
  }

  /** `or c` after a disjunction `acc`, up to the end of the tokens. */
  lemma {:induction false} OrTail(s: Lexed, acc: Expr, q: nat, c: Expr)
    requires AllWellformed(s.tokens)
    requires q < |s.tokens| && s.tokens[q].kind == OR && Spans(s.tokens, q + 1, c, |s.tokens|)
    ensures ParseOrRest(s, acc, q) == Success(Parsed(Disj(acc, c), |s.tokens|))
  {
    SpansAnd(s, q + 1, c, |s.tokens|);
    OrRestStep(s, acc, q, c, |s.tokens|);
    RestStops(s, Disj(acc, c), |s.tokens|);
  }

  /** A conjunction `a`, then `or` and a conjunction `r` that ends the
      input, make the filter `a or r`. */
  lemma OrLast(s: Lexed, a: Expr, p: nat, r: Expr)
    requires AllWellformed(s.tokens) && s.stop == Finished
    requires ParseAnd(s, 0) == Success(Parsed(a, p))
    requires p < |s.tokens| && s.tokens[p].kind == OR
    requires ParseAnd(s, p + 1) == Success(Parsed(r, |s.tokens|))
    ensures ParseFilter(s) == Success(Disj(a, r))
  {
    OrRestStep(s, a, p, r, |s.tokens|);
    RestStops(s, Disj(a, r), |s.tokens|);
    OrFromAnd(s, 0, a, p);
    FilterFromOr(s, Disj(a, r));
  }

  /** Like `OrLast`, with the left conjunction given by its layout. */
  lemma OrAfterSpans(s: Lexed, a: Expr, p: nat, r: Expr)
    requires AllWellformed(s.tokens) && s.stop == Finished
    requires Spans(s.tokens, 0, a, p) && p < |s.tokens| && s.tokens[p].kind == OR
    requires ParseAnd(s, p + 1) == Success(Parsed(r, |s.tokens|))
    ensures ParseFilter(s) == Success(Disj(a, r))
  {
    SpansAnd(s, 0, a, p);
    OrLast(s, a, p, r);
  }

  /** Like `OrLast`, with the right conjunction given by its layout. */
  lemma OrBeforeSpans(s: Lexed, a: Expr, p: nat, r: Expr)
    requires AllWellformed(s.tokens) && s.stop == Finished
    requires ParseAnd(s, 0) == Success(Parsed(a, p))
    requires p < |s.tokens| && s.tokens[p].kind == OR && Spans(s.tokens, p + 1, r, |s.tokens|)
    ensures ParseFilter(s) == Success(Disj(a, r))
  {
    SpansAnd(s, p + 1, r, |s.tokens|);
    OrLast(s, a, p, r);
  }

  /** `a or b and c` groups as `a or (b and c)`: `and` binds tighter. */
  lemma AndBindsTighterRight(s: Lexed, a: Expr, p: nat, b: Expr, q: nat, c: Expr)
    requires AllWellformed(s.tokens) && s.stop == Finished
    requires Spans(s.tokens, 0, a, p) && p < |s.tokens| && s.tokens[p].kind == OR
    requires Spans(s.tokens, p + 1, b, q) && q < |s.tokens| && s.tokens[q].kind == AND
    requires Spans(s.tokens, q + 1, c, |s.tokens|)
    ensures ParseFilter(s) == Success(Disj(a, Conj(b, c)))
  {
    AndOfTwo(s, p + 1, b, q, c, |s.tokens|);
    OrAfterSpans(s, a, p, Conj(b, c));
  }

  /** `a and b or c` groups as `(a and b) or c`. */
  lemma AndBindsTighterLeft(s: Lexed, a: Expr, p: nat, b: Expr, q: nat, c: Expr)
    requires AllWellformed(s.tokens) && s.stop == Finished
    requires Spans(s.tokens, 0, a, p) && p < |s.tokens| && s.tokens[p].kind == AND
    requires Spans(s.tokens, p + 1, b, q) && q < |s.tokens| && s.tokens[q].kind == OR
    requires Spans(s.tokens, q + 1, c, |s.tokens|)
    ensures ParseFilter(s) == Success(Disj(Conj(a, b), c))
  {
    AndOfTwo(s, 0, a, p, b, q);
    OrBeforeSpans(s, Conj(a, b), q, c);
  }

  /** `a and b and c` groups as `(a and b) and c`. */
  lemma AndAssociatesLeft(s: Lexed, a: Expr, p: nat, b: Expr, q: nat, c: Expr)
    requires AllWellformed(s.tokens) && s.stop == Finished
    requires Spans(s.tokens, 0, a, p) && p < |s.tokens| && s.tokens[p].kind == AND
    requires Spans(s.tokens, p + 1, b, q) && q < |s.tokens| && s.tokens[q].kind == AND
    requires Spans(s.tokens, q + 1, c, |s.tokens|)
    ensures ParseFilter(s) == Success(Conj(Conj(a, b), c))
  {
    AndHead(s, 0, a, p, b, q);
    AndTail(s, Conj(a, b), q, c, |s.tokens|);
    AndAlone(s, Conj(Conj(a, b), c));
  }

  /** `a or b or c` groups as `(a or b) or c`. */
  lemma OrAssociatesLeft(s: Lexed, a: Expr, p: nat, b: Expr, q: nat, c: Expr)
    requires AllWellformed(s.tokens) && s.stop == Finished
    requires Spans(s.tokens, 0, a, p) && p < |s.tokens| && s.tokens[p].kind == OR
    requires Spans(s.tokens, p + 1, b, q) && q < |s.tokens| && s.tokens[q].kind == OR
    requires Spans(s.tokens, q + 1, c, |s.tokens|)
    ensures ParseFilter(s) == Success(Disj(Disj(a, b), c))
  {
    OrHead(s, a, p, b, q);
    OrTail(s, Disj(a, b), q, c);
    FilterFromOr(s, Disj(Disj(a, b), c));
  }

  /** `not a and b` groups as `(not a) and b`: `not` binds tighter than
      `and`. */
  lemma NotBindsTighter(s: Lexed, a: Expr, p: nat, b: Expr)
    requires AllWellformed(s.tokens) && s.stop == Finished
    requires 0 < |s.tokens| && s.tokens[0].kind == NOT
    requires Spans(s.tokens, 1, a, p) && p < |s.tokens| && s.tokens[p].kind == AND
    requires Spans(s.tokens, p + 1, b, |s.tokens|)
    ensures ParseFilter(s) == Success(Conj(Negation(a), b))
  {
    assert Spans(s.tokens, 0, Negation(a), p) by {
      assert Layout(s.tokens, 0, Negation(a), p);
    }
    AndOfTwo(s, 0, Negation(a), p, b, |s.tokens|);
    AndAlone(s, Conj(Negation(a), b));
  }

  /** A filter that ends in `and` or `or` fails at the end of the input,
      where `p_error` is handed no token. */
  lemma {:induction false} DanglingConnective(s: Lexed, a: Expr, p: nat)
    requires AllWellformed(s.tokens) && s.stop == Finished
    requires Spans(s.tokens, 0, a, p) && p + 1 == |s.tokens| && s.tokens[p].kind in {AND, OR}
    ensures ParseFilter(s) == Failure(EndOfInput)
  {
    SpansParses(s, 0, a, p);
    if s.tokens[p].kind == AND {
      assert ParseUnary(s, p + 1) == Failure(EndOfInput);
      assert ParseAndRest(s, a, p) == Failure(EndOfInput);
      assert ParseAnd(s, 0) == Failure(EndOfInput);
      assert ParseOr(s, 0) == Failure(EndOfInput);
    } else {
      RestStops(s, a, p);
      assert ParseAnd(s, p + 1) == Failure(EndOfInput);
      assert ParseOrRest(s, a, p) == Failure(EndOfInput);
      OrFromAnd(s, 0, a, p);
    }
  }

  /** A complete tree followed by a token that continues nothing, such as
      an unmatched `)`, is rejected at that token. */
  lemma {:induction false} TrailingToken(s: Lexed, a: Expr, p: nat)
    requires AllWellformed(s.tokens)
    requires Spans(s.tokens, 0, a, p) && p < |s.tokens| && s.tokens[p].kind !in {AND, OR}
    ensures ParseFilter(s) == Failure(SyntaxError(s.tokens[p].value, s.tokens[p].pos))
  {
    SpansAnd(s, 0, a, p);
    RestStops(s, a, p);
    OrFromAnd(s, 0, a, p);
  }
}
