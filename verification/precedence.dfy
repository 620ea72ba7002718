/** A printer that writes only the parentheses the precedence table needs,
    and the proof that the parser reads every tree it prints back: any
    unparenthesised chain of `and`, `or` and `not` groups as the table says.
    An `or` under an `and`, a right operand with the same connective as its
    parent, and an `and`/`or` under `not` are the only places it brackets. */
module Precedence {
  import opened Wrappers
  import opened Tokens
  import opened Lexer
  import opened Grammar
  import opened GrammarFacts

  // ----- the printer -------------------------------------------------------

  /** Prints a tree where an operand of `and` is expected: comparisons,
      membership tests and `not` bare, `and`/`or` in parentheses. */
  function PrintOperand(e: Expr): seq<Token>
    decreases e, 0
  {
    match e
    case Compare(_, _, _) => Print(e)
    case Member(_, _) => Print(e)
    case Negation(inner) => [Punct(NOT)] + PrintOperand(inner)
    case Conj(l, r) => [Punct(LPAREN)] + (PrintConj(l) + [Punct(AND)] + PrintOperand(r)) + [Punct(RPAREN)]
    case Disj(l, r) => [Punct(LPAREN)] + (PrintDisj(l) + [Punct(OR)] + PrintConj(r)) + [Punct(RPAREN)]
  }

  /** Prints a tree where an operand of `or` is expected: a chain of
      `and` over operands, grouped to the left. */
  function PrintConj(e: Expr): seq<Token>
    decreases e, 1
  {
    if e.Conj? then PrintConj(e.left) + [Punct(AND)] + PrintOperand(e.right)
    else PrintOperand(e)
  }

  /** Prints a whole expression: a chain of `or` over conjunctions,
      grouped to the left. */
  function PrintDisj(e: Expr): seq<Token>
    decreases e, 2
  {
    if e.Disj? then PrintDisj(e.left) + [Punct(OR)] + PrintConj(e.right)
    else PrintConj(e)
  }

  function PrintMin(e: Expr): seq<Token> {
    PrintDisj(e)
  }

  // ----- the token layout the printer writes -------------------------------

  /** The number of tokens `PrintOperand`, `PrintConj` and `PrintDisj`
      spend on a tree; each count is wrapped like the layouts below, so
      that a width that is only passed along is not unfolded. */
  function OperandWidth(e: Expr): nat
    decreases e, 1
  {
    OperandCount(e)
  }

  function OperandCount(e: Expr): nat
    decreases e, 0
  {
    match e
    case Compare(_, _, _) => Width(e)
    case Member(_, _) => Width(e)
    case Negation(inner) => 1 + OperandWidth(inner)
    case Conj(l, r) => ConjWidth(l) + OperandWidth(r) + 3
    case Disj(l, r) => DisjWidth(l) + ConjWidth(r) + 3
  }

  function ConjWidth(e: Expr): nat
    decreases e, 3
  {
    ConjCount(e)
  }

  function ConjCount(e: Expr): nat
    decreases e, 2
  {
    if e.Conj? then ConjWidth(e.left) + 1 + OperandWidth(e.right) else OperandWidth(e)
  }

  function DisjWidth(e: Expr): nat
    decreases e, 5
  {
    DisjCount(e)
  }

  function DisjCount(e: Expr): nat
    decreases e, 4
  {
    if e.Disj? then DisjWidth(e.left) + 1 + ConjWidth(e.right) else ConjWidth(e)
  }

  /** `ts` has a token of kind `k` at `p`. */
  predicate KindAt(ts: seq<Token>, p: nat, k: Kind) {
    p < |ts| && ts[p].kind == k
  }

  /** Tokens from `i` of `ts` spell `e` as `PrintOperand` writes it. Each
      layout comes in two steps, as `Spans` does: the outer predicate only
      bounds the width, so a proof that passes a layout along does not
      unfold it. */
  predicate AtOperand(ts: seq<Token>, i: nat, e: Expr)
    decreases e, 1
  {
    i + OperandWidth(e) <= |ts| && OperandLayout(ts, i, e)
  }

  predicate OperandLayout(ts: seq<Token>, i: nat, e: Expr)
    decreases e, 0
  {
    match e
    case Compare(_, _, _) => Spans(ts, i, e, i + Width(e))
    case Member(_, _) => Spans(ts, i, e, i + Width(e))
    case Negation(inner) => KindAt(ts, i, NOT) && AtOperand(ts, i + 1, inner)
    case Conj(l, r) =>
      && KindAt(ts, i, LPAREN) && AtConj(ts, i + 1, l) && KindAt(ts, i + 1 + ConjWidth(l), AND)
      && AtOperand(ts, i + 2 + ConjWidth(l), r) && KindAt(ts, i + 2 + ConjWidth(l) + OperandWidth(r), RPAREN)
    case Disj(l, r) =>
      && KindAt(ts, i, LPAREN) && AtDisj(ts, i + 1, l) && KindAt(ts, i + 1 + DisjWidth(l), OR)
      && AtConj(ts, i + 2 + DisjWidth(l), r) && KindAt(ts, i + 2 + DisjWidth(l) + ConjWidth(r), RPAREN)
  }

  /** Tokens from `i` of `ts` spell `e` as `PrintConj` writes it. */
  predicate AtConj(ts: seq<Token>, i: nat, e: Expr)
    decreases e, 3
  {
    i + ConjWidth(e) <= |ts| && ConjLayout(ts, i, e)
  }

  predicate ConjLayout(ts: seq<Token>, i: nat, e: Expr)
    decreases e, 2
  {
    if e.Conj? then
      && AtConj(ts, i, e.left) && KindAt(ts, i + ConjWidth(e.left), AND)
      && AtOperand(ts, i + ConjWidth(e.left) + 1, e.right)
    else AtOperand(ts, i, e)
  }

  /** Tokens from `i` of `ts` spell `e` as `PrintDisj` writes it. */
  predicate AtDisj(ts: seq<Token>, i: nat, e: Expr)
    decreases e, 5
  {
    i + DisjWidth(e) <= |ts| && DisjLayout(ts, i, e)
  }

  predicate DisjLayout(ts: seq<Token>, i: nat, e: Expr)
    decreases e, 4
  {
    if e.Disj? then
      && AtDisj(ts, i, e.left) && KindAt(ts, i + DisjWidth(e.left), OR)
      && AtConj(ts, i + DisjWidth(e.left) + 1, e.right)
    else AtConj(ts, i, e)
  }

  // ----- moving a layout into a larger sequence -----------------------------

  /** `u` holds `ts` from `d`, stated token by token. */
  predicate Within(u: seq<Token>, d: nat, ts: seq<Token>) {
    d + |ts| <= |u| && forall k :: 0 <= k < |ts| ==> u[d + k] == ts[k]
  }

  lemma {:induction false} WithinEmbeds(u: seq<Token>, d: nat, ts: seq<Token>)
    requires Within(u, d, ts)
    ensures Embeds(u, d, ts)
  {
    assert u[d..d + |ts|] == ts;
  }

  /** `u` is `l op r`, token by token. */
  predicate Joined(u: seq<Token>, l: seq<Token>, op: Token, r: seq<Token>) {
    |u| == |l| + 1 + |r| && Within(u, 0, l) && u[|l|] == op && Within(u, |l| + 1, r)
  }

  /** `u` is `( l op r )`, token by token. */
  predicate Grouped(u: seq<Token>, l: seq<Token>, op: Token, r: seq<Token>) {
    && |u| == |l| + |r| + 3 && u[0] == Punct(LPAREN) && Within(u, 1, l)
    && u[1 + |l|] == op && Within(u, |l| + 2, r) && u[|l| + |r| + 2] == Punct(RPAREN)
  }

  lemma {:induction false} WithinInfix(l: seq<Token>, op: Token, r: seq<Token>)
    ensures Joined(l + [op] + r, l, op, r)
  {
    var u := l + [op] + r;
    forall k | 0 <= k < |l| ensures u[k] == l[k] {}
    forall k | 0 <= k < |r| ensures u[|l| + 1 + k] == r[k] {}
  }

  lemma {:induction false} WithinGroup(l: seq<Token>, op: Token, r: seq<Token>)
    ensures Grouped([Punct(LPAREN)] + (l + [op] + r) + [Punct(RPAREN)], l, op, r)
  {
    var m := l + [op] + r;
    var u := [Punct(LPAREN)] + m + [Punct(RPAREN)];
    forall k | 0 <= k < |m| ensures u[1 + k] == m[k] {}
    forall k | 0 <= k < |l| ensures u[1 + k] == l[k] { assert m[k] == l[k]; }
    forall k | 0 <= k < |r| ensures u[|l| + 2 + k] == r[k] { assert m[|l| + 1 + k] == r[k]; }
    assert m[|l|] == op;
  }

  lemma {:induction false} WithinPrefix(t: Token, r: seq<Token>)
    ensures |[t] + r| == |r| + 1 && ([t] + r)[0] == t && Within([t] + r, 1, r)
  {
    var u := [t] + r;
    forall k | 0 <= k < |r| ensures u[1 + k] == r[k] {}
  }

  lemma {:induction false} KindShift(ts: seq<Token>, u: seq<Token>, d: nat, p: nat, k: Kind)
    requires Within(u, d, ts) && KindAt(ts, p, k)
    ensures KindAt(u, d + p, k)
  {
    assert u[d + p] == ts[p];
  }

  lemma {:induction false} RuleShift(ts: seq<Token>, u: seq<Token>, d: nat, i: nat, e: Expr)
    requires Within(u, d, ts) && (e.Compare? || e.Member?) && AtOperand(ts, i, e)
    ensures AtOperand(u, d + i, e)
  {
    assert OperandLayout(ts, i, e) && OperandCount(e) == Width(e);
    WithinEmbeds(u, d, ts);
    SpansShift(ts, u, d, i, e, i + Width(e));
    assert OperandLayout(u, d + i, e);
  }

  lemma {:induction false} OperandShift(ts: seq<Token>, u: seq<Token>, d: nat, i: nat, e: Expr)
    requires Within(u, d, ts) && AtOperand(ts, i, e)
    ensures AtOperand(u, d + i, e)
    decreases e, 1
  {
    match e
    case Compare(_, _, _) => RuleShift(ts, u, d, i, e);
    case Member(_, _) => RuleShift(ts, u, d, i, e);
    case Negation(inner) =>
      assert OperandLayout(ts, i, e);
      KindShift(ts, u, d, i, NOT);
      OperandShift(ts, u, d, i + 1, inner);
      assert OperandLayout(u, d + i, e);
    case Conj(l, r) => ConjGroupShift(ts, u, d, i, l, r);
    case Disj(l, r) => DisjGroupShift(ts, u, d, i, l, r);
  }

  lemma {:induction false} ConjGroupShift(ts: seq<Token>, u: seq<Token>, d: nat, i: nat, l: Expr, r: Expr)
    requires Within(u, d, ts) && AtOperand(ts, i, Conj(l, r))
    ensures AtOperand(u, d + i, Conj(l, r))
    decreases Conj(l, r), 0
  {
    assert OperandLayout(ts, i, Conj(l, r));
    KindShift(ts, u, d, i, LPAREN);
    ConjShift(ts, u, d, i + 1, l);
    KindShift(ts, u, d, i + 1 + ConjWidth(l), AND);
    OperandShift(ts, u, d, i + 2 + ConjWidth(l), r);
    KindShift(ts, u, d, i + 2 + ConjWidth(l) + OperandWidth(r), RPAREN);
    assert OperandLayout(u, d + i, Conj(l, r));
  }

  lemma {:induction false} DisjGroupShift(ts: seq<Token>, u: seq<Token>, d: nat, i: nat, l: Expr, r: Expr)
    requires Within(u, d, ts) && AtOperand(ts, i, Disj(l, r))
    ensures AtOperand(u, d + i, Disj(l, r))
    decreases Disj(l, r), 0
  {
    assert OperandLayout(ts, i, Disj(l, r));
    KindShift(ts, u, d, i, LPAREN);
    DisjShift(ts, u, d, i + 1, l);
    KindShift(ts, u, d, i + 1 + DisjWidth(l), OR);
    ConjShift(ts, u, d, i + 2 + DisjWidth(l), r);
    KindShift(ts, u, d, i + 2 + DisjWidth(l) + ConjWidth(r), RPAREN);
    assert OperandLayout(u, d + i, Disj(l, r));
  }

  lemma {:induction false} ConjShift(ts: seq<Token>, u: seq<Token>, d: nat, i: nat, e: Expr)
    requires Within(u, d, ts) && AtConj(ts, i, e)
    ensures AtConj(u, d + i, e)
    decreases e, 2
  {
    assert ConjLayout(ts, i, e);
    if e.Conj? {
      ConjShift(ts, u, d, i, e.left);
      KindShift(ts, u, d, i + ConjWidth(e.left), AND);
      OperandShift(ts, u, d, i + ConjWidth(e.left) + 1, e.right);
    } else {
      OperandShift(ts, u, d, i, e);
    }
    assert ConjLayout(u, d + i, e);
  }

  lemma {:induction false} DisjShift(ts: seq<Token>, u: seq<Token>, d: nat, i: nat, e: Expr)
    requires Within(u, d, ts) && AtDisj(ts, i, e)
    ensures AtDisj(u, d + i, e)
    decreases e, 3
  {
    assert DisjLayout(ts, i, e);
    if e.Disj? {
      DisjShift(ts, u, d, i, e.left);
      KindShift(ts, u, d, i + DisjWidth(e.left), OR);
      ConjShift(ts, u, d, i + DisjWidth(e.left) + 1, e.right);
    } else {
      ConjShift(ts, u, d, i, e);
    }
    assert DisjLayout(u, d + i, e);
  }

  // ----- how the printer lays a tree out ------------------------------------

  /** `PrintOperand` writes `AtOperand`'s layout, `OperandWidth` tokens long. */
  lemma {:induction false} PrintedOperand(e: Expr)
    requires Printable(e)
    ensures |PrintOperand(e)| == OperandWidth(e) && AtOperand(PrintOperand(e), 0, e)
    decreases e, 1
  {
    match e
    case Compare(_, _, _) => PrintedRule(e);
    case Member(_, _) => PrintedRule(e);
    case Negation(inner) => PrintedNegation(inner);
    case Conj(l, r) => PrintedConjGroup(l, r);
    case Disj(l, r) => PrintedDisjGroup(l, r);
  }

  lemma {:induction false} PrintedRule(e: Expr)
    requires Printable(e) && (e.Compare? || e.Member?)
    ensures |PrintOperand(e)| == OperandWidth(e) && AtOperand(PrintOperand(e), 0, e)
  {
    PrintSpans(e);
    assert OperandCount(e) == Width(e);
    assert OperandLayout(Print(e), 0, e);
  }

  lemma {:induction false} PrintedNegation(inner: Expr)
    requires Printable(inner)
    ensures |PrintOperand(Negation(inner))| == OperandWidth(Negation(inner))
    ensures AtOperand(PrintOperand(Negation(inner)), 0, Negation(inner))
    decreases Negation(inner), 0
  {
    var u := [Punct(NOT)] + PrintOperand(inner);
    assert PrintOperand(Negation(inner)) == u;
    PrintedOperand(inner);
    WithinPrefix(Punct(NOT), PrintOperand(inner));
    NegationLaid(u, PrintOperand(inner), inner);
  }

  lemma {:induction false} PrintedConjGroup(l: Expr, r: Expr)
    requires Printable(l) && Printable(r)
    ensures |PrintOperand(Conj(l, r))| == OperandWidth(Conj(l, r))
    ensures AtOperand(PrintOperand(Conj(l, r)), 0, Conj(l, r))
    decreases Conj(l, r), 0
  {
    var u := [Punct(LPAREN)] + (PrintConj(l) + [Punct(AND)] + PrintOperand(r)) + [Punct(RPAREN)];
    assert PrintOperand(Conj(l, r)) == u;
    PrintedConj(l);
    PrintedOperand(r);
    WithinGroup(PrintConj(l), Punct(AND), PrintOperand(r));
    ConjGroupLaid(u, PrintConj(l), l, PrintOperand(r), r);
  }

  lemma {:induction false} PrintedDisjGroup(l: Expr, r: Expr)
    requires Printable(l) && Printable(r)
    ensures |PrintOperand(Disj(l, r))| == OperandWidth(Disj(l, r))
    ensures AtOperand(PrintOperand(Disj(l, r)), 0, Disj(l, r))
    decreases Disj(l, r), 0
  {
    var u := [Punct(LPAREN)] + (PrintDisj(l) + [Punct(OR)] + PrintConj(r)) + [Punct(RPAREN)];
    assert PrintOperand(Disj(l, r)) == u;
    PrintedDisj(l);
    PrintedConj(r);
    WithinGroup(PrintDisj(l), Punct(OR), PrintConj(r));
    DisjGroupLaid(u, PrintDisj(l), l, PrintConj(r), r);
  }

  /** `PrintConj` writes `AtConj`'s layout, `ConjWidth` tokens long. */
  lemma {:induction false} PrintedConj(e: Expr)
    requires Printable(e)
    ensures |PrintConj(e)| == ConjWidth(e) && AtConj(PrintConj(e), 0, e)
    decreases e, 2
  {
    if e.Conj? {
      var u := PrintConj(e.left) + [Punct(AND)] + PrintOperand(e.right);
      assert PrintConj(e) == u;
      PrintedConj(e.left);
      PrintedOperand(e.right);
      WithinInfix(PrintConj(e.left), Punct(AND), PrintOperand(e.right));
      ConjChainLaid(u, PrintConj(e.left), e.left, PrintOperand(e.right), e.right);
      assert e == Conj(e.left, e.right);
    } else {
      PrintedOperand(e);
      assert ConjCount(e) == OperandWidth(e);
      assert ConjLayout(PrintConj(e), 0, e);
    }
  }

  /** `PrintDisj` writes `AtDisj`'s layout, `DisjWidth` tokens long. */
  lemma {:induction false} PrintedDisj(e: Expr)
    requires Printable(e)
    ensures |PrintDisj(e)| == DisjWidth(e) && AtDisj(PrintDisj(e), 0, e)
    decreases e, 3
  {
    if e.Disj? {
      var u := PrintDisj(e.left) + [Punct(OR)] + PrintConj(e.right);
      assert PrintDisj(e) == u;
      PrintedDisj(e.left);
      PrintedConj(e.right);
      WithinInfix(PrintDisj(e.left), Punct(OR), PrintConj(e.right));
      DisjChainLaid(u, PrintDisj(e.left), e.left, PrintConj(e.right), e.right);
      assert e == Disj(e.left, e.right);
    } else {
      PrintedConj(e);
      assert DisjCount(e) == ConjWidth(e);
      assert DisjLayout(PrintDisj(e), 0, e);
    }
  }

  // The four steps below put laid-out parts together. They are stated over
  // a sequence `u` known only token by token, so that neither the printers'
  // definitions nor concatenation enter their proofs.

  lemma {:induction false} NegationLaid(u: seq<Token>, t: seq<Token>, inner: Expr)
    requires |t| == OperandWidth(inner) && AtOperand(t, 0, inner)
    requires |u| == |t| + 1 && u[0] == Punct(NOT) && Within(u, 1, t)
    ensures |u| == OperandWidth(Negation(inner)) && AtOperand(u, 0, Negation(inner))
  {
    OperandShift(t, u, 1, 0, inner);
    assert OperandCount(Negation(inner)) == 1 + OperandWidth(inner);
    assert OperandLayout(u, 0, Negation(inner));
  }

  lemma {:induction false} ConjGroupLaid(u: seq<Token>, lt: seq<Token>, l: Expr, rt: seq<Token>, r: Expr)
    requires |lt| == ConjWidth(l) && AtConj(lt, 0, l)
    requires |rt| == OperandWidth(r) && AtOperand(rt, 0, r)
    requires Grouped(u, lt, Punct(AND), rt)
    ensures |u| == OperandWidth(Conj(l, r)) && AtOperand(u, 0, Conj(l, r))
  {
    ConjShift(lt, u, 1, 0, l);
    OperandShift(rt, u, |lt| + 2, 0, r);
    assert OperandCount(Conj(l, r)) == ConjWidth(l) + OperandWidth(r) + 3;
    assert OperandLayout(u, 0, Conj(l, r));
  }

  lemma {:induction false} DisjGroupLaid(u: seq<Token>, lt: seq<Token>, l: Expr, rt: seq<Token>, r: Expr)
    requires |lt| == DisjWidth(l) && AtDisj(lt, 0, l)
    requires |rt| == ConjWidth(r) && AtConj(rt, 0, r)
    requires Grouped(u, lt, Punct(OR), rt)
    ensures |u| == OperandWidth(Disj(l, r)) && AtOperand(u, 0, Disj(l, r))
  {
    DisjShift(lt, u, 1, 0, l);
    ConjShift(rt, u, |lt| + 2, 0, r);
    assert OperandCount(Disj(l, r)) == DisjWidth(l) + ConjWidth(r) + 3;
    assert OperandLayout(u, 0, Disj(l, r));
  }

  lemma {:induction false} ConjChainLaid(u: seq<Token>, lt: seq<Token>, l: Expr, rt: seq<Token>, r: Expr)
    requires |lt| == ConjWidth(l) && AtConj(lt, 0, l)
    requires |rt| == OperandWidth(r) && AtOperand(rt, 0, r)
    requires Joined(u, lt, Punct(AND), rt)
    ensures |u| == ConjWidth(Conj(l, r)) && AtConj(u, 0, Conj(l, r))
  {
    ConjShift(lt, u, 0, 0, l);
    OperandShift(rt, u, |lt| + 1, 0, r);
    assert ConjCount(Conj(l, r)) == ConjWidth(l) + 1 + OperandWidth(r);
    assert ConjLayout(u, 0, Conj(l, r));
  }

  lemma {:induction false} DisjChainLaid(u: seq<Token>, lt: seq<Token>, l: Expr, rt: seq<Token>, r: Expr)
    requires |lt| == DisjWidth(l) && AtDisj(lt, 0, l)
    requires |rt| == ConjWidth(r) && AtConj(rt, 0, r)
    requires Joined(u, lt, Punct(OR), rt)
    ensures |u| == DisjWidth(Disj(l, r)) && AtDisj(u, 0, Disj(l, r))
  {
    DisjShift(lt, u, 0, 0, l);
    ConjShift(rt, u, |lt| + 1, 0, r);
    assert DisjCount(Disj(l, r)) == DisjWidth(l) + 1 + ConjWidth(r);
    assert DisjLayout(u, 0, Disj(l, r));
  }

  // ----- parsing the layout ---------------------------------------------------

  /** Tokens laid out as `PrintOperand` writes them parse back as one
      operand. */
  lemma {:induction false} OperandParses(s: Lexed, i: nat, e: Expr, n: nat)
    requires AllWellformed(s.tokens) && AtOperand(s.tokens, i, e) && n == i + OperandWidth(e)
    ensures ParseUnary(s, i) == Success(Parsed(e, n))
    decreases e, 1
  {
    match e
    case Compare(_, _, _) => RuleParses(s, i, e, n);
    case Member(_, _) => RuleParses(s, i, e, n);
    case Negation(inner) => NegatedOperand(s, i, inner, n);
    case Conj(l, r) => ConjOperand(s, i, l, r, n);
    case Disj(l, r) => DisjOperand(s, i, l, r, n);
  }

  lemma {:induction false} RuleParses(s: Lexed, i: nat, e: Expr, n: nat)
    requires AllWellformed(s.tokens) && (e.Compare? || e.Member?) && AtOperand(s.tokens, i, e)
    requires n == i + OperandWidth(e)
    ensures ParseUnary(s, i) == Success(Parsed(e, n))
  {
    assert OperandLayout(s.tokens, i, e) && OperandCount(e) == Width(e);
    SpansParses(s, i, e, n);
  }

  lemma {:induction false} NegatedOperand(s: Lexed, i: nat, inner: Expr, n: nat)
    requires AllWellformed(s.tokens) && AtOperand(s.tokens, i, Negation(inner))
    requires n == i + OperandWidth(Negation(inner))
    ensures ParseUnary(s, i) == Success(Parsed(Negation(inner), n))
    decreases Negation(inner), 0
  {
    NegationLayoutParts(s.tokens, i, inner);
    OperandParses(s, i + 1, inner, n);
    NotStep(s, i, inner, n);
  }

  /** `( l and r )` as an operand. */
  lemma {:induction false} ConjOperand(s: Lexed, i: nat, l: Expr, r: Expr, n: nat)
    requires AllWellformed(s.tokens) && AtOperand(s.tokens, i, Conj(l, r))
    requires n == i + OperandWidth(Conj(l, r))
    ensures ParseUnary(s, i) == Success(Parsed(Conj(l, r), n))
    decreases Conj(l, r), 0
  {
    var p := i + 1 + ConjWidth(l);
    ConjGroupParts(s.tokens, i, l, r, n);
    ConjParses(s, i + 1, l, p);
    ConjGroupCloses(s, i, l, p, r, n);
  }

  /** The rest of `( l and r )` once `l`'s chain is known to parse. */
  lemma {:induction false} ConjGroupCloses(s: Lexed, i: nat, l: Expr, p: nat, r: Expr, n: nat)
    requires AllWellformed(s.tokens) && KindAt(s.tokens, i, LPAREN) && KindAt(s.tokens, p, AND)
    requires ParseAnd(s, i + 1) == ParseAndRest(s, l, p)
    requires AtOperand(s.tokens, p + 1, r) && n == p + 1 + OperandWidth(r) + 1 && KindAt(s.tokens, n - 1, RPAREN)
    ensures ParseUnary(s, i) == Success(Parsed(Conj(l, r), n))
    decreases r, 2
  {
    OperandParses(s, p + 1, r, n - 1);
    GroupedConj(s, i, l, p, r, n);
  }

  /** `( l or r )` as an operand. */
  lemma {:induction false} DisjOperand(s: Lexed, i: nat, l: Expr, r: Expr, n: nat)
    requires AllWellformed(s.tokens) && AtOperand(s.tokens, i, Disj(l, r))
    requires n == i + OperandWidth(Disj(l, r))
    ensures ParseUnary(s, i) == Success(Parsed(Disj(l, r), n))
    decreases Disj(l, r), 0
  {
    var p := i + 1 + DisjWidth(l);
    DisjGroupParts(s.tokens, i, l, r, n);
    DisjParses(s, i + 1, l, p);
    DisjGroupCloses(s, i, l, p, r, n);
  }

  /** The rest of `( l or r )` once `l`'s chain is known to parse. */
  lemma {:induction false} DisjGroupCloses(s: Lexed, i: nat, l: Expr, p: nat, r: Expr, n: nat)
    requires AllWellformed(s.tokens) && KindAt(s.tokens, i, LPAREN) && KindAt(s.tokens, p, OR)
    requires ParseOr(s, i + 1) == ParseOrRest(s, l, p)
    requires AtConj(s.tokens, p + 1, r) && n == p + 1 + ConjWidth(r) + 1 && KindAt(s.tokens, n - 1, RPAREN)
    ensures ParseUnary(s, i) == Success(Parsed(Disj(l, r), n))
    decreases r, 3
  {
    ConjParses(s, p + 1, r, n - 1);
    GroupedDisj(s, i, l, p, r, n);
  }

  /** Where the parts of a laid-out `( l and r )` lie. */
  lemma {:induction false} ConjGroupParts(ts: seq<Token>, i: nat, l: Expr, r: Expr, n: nat)
    requires AtOperand(ts, i, Conj(l, r)) && n == i + OperandWidth(Conj(l, r))
    ensures KindAt(ts, i, LPAREN) && AtConj(ts, i + 1, l) && KindAt(ts, i + 1 + ConjWidth(l), AND)
    ensures AtOperand(ts, i + 1 + ConjWidth(l) + 1, r) && n == i + 1 + ConjWidth(l) + 1 + OperandWidth(r) + 1
    ensures KindAt(ts, n - 1, RPAREN)
  {
    assert OperandLayout(ts, i, Conj(l, r)) && OperandCount(Conj(l, r)) == ConjWidth(l) + OperandWidth(r) + 3;
  }

  /** Where the parts of a laid-out `( l or r )` lie. */
  lemma {:induction false} DisjGroupParts(ts: seq<Token>, i: nat, l: Expr, r: Expr, n: nat)
    requires AtOperand(ts, i, Disj(l, r)) && n == i + OperandWidth(Disj(l, r))
    ensures KindAt(ts, i, LPAREN) && AtDisj(ts, i + 1, l) && KindAt(ts, i + 1 + DisjWidth(l), OR)
    ensures AtConj(ts, i + 1 + DisjWidth(l) + 1, r) && n == i + 1 + DisjWidth(l) + 1 + ConjWidth(r) + 1
    ensures KindAt(ts, n - 1, RPAREN)
  {
    assert OperandLayout(ts, i, Disj(l, r)) && OperandCount(Disj(l, r)) == DisjWidth(l) + ConjWidth(r) + 3;
  }

  /** `( l and r )`, given where `l`'s chain, `and`, `r` and `)` lie. */
  lemma {:induction false} GroupedConj(s: Lexed, i: nat, l: Expr, p: nat, r: Expr, n: nat)
    requires AllWellformed(s.tokens) && KindAt(s.tokens, i, LPAREN) && KindAt(s.tokens, p, AND)
    requires ParseAnd(s, i + 1) == ParseAndRest(s, l, p)
    requires 1 <= n && KindAt(s.tokens, n - 1, RPAREN) && ParseUnary(s, p + 1) == Success(Parsed(r, n - 1))
    ensures ParseUnary(s, i) == Success(Parsed(Conj(l, r), n))
  {
    AndRestStep(s, l, p, r, n - 1);
    RestStops(s, Conj(l, r), n - 1);
    OrFromAnd(s, i + 1, Conj(l, r), n - 1);
    GroupStep(s, i, Conj(l, r), n - 1);
  }

  /** `( l or r )`, given where `l`'s chain, `or`, `r` and `)` lie. */
  lemma {:induction false} GroupedDisj(s: Lexed, i: nat, l: Expr, p: nat, r: Expr, n: nat)
    requires AllWellformed(s.tokens) && KindAt(s.tokens, i, LPAREN) && KindAt(s.tokens, p, OR)
    requires ParseOr(s, i + 1) == ParseOrRest(s, l, p)
    requires 1 <= n && KindAt(s.tokens, n - 1, RPAREN) && ParseAnd(s, p + 1) == ParseAndRest(s, r, n - 1)
    ensures ParseUnary(s, i) == Success(Parsed(Disj(l, r), n))
  {
    RestStops(s, r, n - 1);
    OrRestStep(s, l, p, r, n - 1);
    RestStops(s, Disj(l, r), n - 1);
    GroupStep(s, i, Disj(l, r), n - 1);
  }

  /** Tokens laid out as `PrintConj` writes them are a conjunction that
      goes on with `e` as its left part right after them. */
  lemma {:induction false} ConjParses(s: Lexed, i: nat, e: Expr, n: nat)
    requires AllWellformed(s.tokens) && AtConj(s.tokens, i, e) && n == i + ConjWidth(e)
    ensures ParseAnd(s, i) == ParseAndRest(s, e, n)
    decreases e, 2
  {
    match e
    case Conj(l, r) => ConjChain(s, i, l, r, n);
    case _ =>
      ConjOfOperand(s.tokens, i, e);
      OperandParses(s, i, e, n);
      AndStart(s, i, e, n);
  }

  /** A laid-out conjunction that is not an `and` node is one operand. */
  lemma {:induction false} ConjOfOperand(ts: seq<Token>, i: nat, e: Expr)
    requires AtConj(ts, i, e) && !e.Conj?
    ensures AtOperand(ts, i, e) && ConjWidth(e) == OperandWidth(e)
  {
    assert ConjLayout(ts, i, e) && ConjCount(e) == OperandWidth(e);
  }

  /** A laid-out disjunction that is not an `or` node is one conjunction. */
  lemma {:induction false} DisjOfConj(ts: seq<Token>, i: nat, e: Expr)
    requires AtDisj(ts, i, e) && !e.Disj?
    ensures AtConj(ts, i, e) && DisjWidth(e) == ConjWidth(e)
  {
    assert DisjLayout(ts, i, e) && DisjCount(e) == ConjWidth(e);
  }

  /** Where the parts of a laid-out `not inner` lie. */
  lemma {:induction false} NegationLayoutParts(ts: seq<Token>, i: nat, inner: Expr)
    requires AtOperand(ts, i, Negation(inner))
    ensures KindAt(ts, i, NOT) && AtOperand(ts, i + 1, inner)
    ensures i + OperandWidth(Negation(inner)) == i + 1 + OperandWidth(inner)
  {
    assert OperandLayout(ts, i, Negation(inner)) && OperandCount(Negation(inner)) == 1 + OperandWidth(inner);
  }

  /** Where the parts of a laid-out chain `l and r` lie. */
  lemma {:induction false} ConjChainParts(ts: seq<Token>, i: nat, l: Expr, r: Expr)
    requires AtConj(ts, i, Conj(l, r))
    ensures AtConj(ts, i, l) && KindAt(ts, i + ConjWidth(l), AND) && AtOperand(ts, i + ConjWidth(l) + 1, r)
    ensures ConjWidth(Conj(l, r)) == ConjWidth(l) + 1 + OperandWidth(r)
  {
    assert ConjLayout(ts, i, Conj(l, r)) && ConjCount(Conj(l, r)) == ConjWidth(l) + 1 + OperandWidth(r);
  }

  /** Where the parts of a laid-out chain `l or r` lie. */
  lemma {:induction false} DisjChainParts(ts: seq<Token>, i: nat, l: Expr, r: Expr)
    requires AtDisj(ts, i, Disj(l, r))
    ensures AtDisj(ts, i, l) && KindAt(ts, i + DisjWidth(l), OR) && AtConj(ts, i + DisjWidth(l) + 1, r)
    ensures DisjWidth(Disj(l, r)) == DisjWidth(l) + 1 + ConjWidth(r)
  {
    assert DisjLayout(ts, i, Disj(l, r)) && DisjCount(Disj(l, r)) == DisjWidth(l) + 1 + ConjWidth(r);
  }

  /** `not` before an operand that ends at `n`. */
  lemma {:induction false} NotStep(s: Lexed, i: nat, inner: Expr, n: nat)
    requires AllWellformed(s.tokens) && KindAt(s.tokens, i, NOT)
    requires ParseUnary(s, i + 1) == Success(Parsed(inner, n))
    ensures ParseUnary(s, i) == Success(Parsed(Negation(inner), n))
  {
  }

  /** One more `and` operand on a conjunction that started at `i`. */
  lemma {:induction false} AndChainStep(s: Lexed, i: nat, l: Expr, p: nat, r: Expr, q: nat)
    requires AllWellformed(s.tokens) && i <= p && KindAt(s.tokens, p, AND)
    requires ParseAnd(s, i) == ParseAndRest(s, l, p)
    requires ParseUnary(s, p + 1) == Success(Parsed(r, q))
    ensures ParseAnd(s, i) == ParseAndRest(s, Conj(l, r), q)
  {
    AndRestStep(s, l, p, r, q);
  }

  /** One more `or` operand on a disjunction that started at `i`, followed
      by anything but `and`. */
  lemma {:induction false} OrChainStep(s: Lexed, i: nat, l: Expr, p: nat, r: Expr, n: nat)
    requires AllWellformed(s.tokens) && i <= p && KindAt(s.tokens, p, OR)
    requires ParseOr(s, i) == ParseOrRest(s, l, p)
    requires n <= |s.tokens| && ParseAnd(s, p + 1) == ParseAndRest(s, r, n) && !KindAt(s.tokens, n, AND)
    ensures ParseOr(s, i) == ParseOrRest(s, Disj(l, r), n)
  {
    RestStops(s, r, n);
    OrRestStep(s, l, p, r, n);
  }

  /** A conjunction followed by anything but `and` starts a disjunction. */
  lemma {:induction false} OrStart(s: Lexed, i: nat, e: Expr, n: nat)
    requires AllWellformed(s.tokens) && i <= n <= |s.tokens|
    requires ParseAnd(s, i) == ParseAndRest(s, e, n) && !KindAt(s.tokens, n, AND)
    ensures ParseOr(s, i) == ParseOrRest(s, e, n)
  {
    RestStops(s, e, n);
    OrFromAnd(s, i, e, n);
  }

  /** A conjunction goes on from its first operand. */
  lemma {:induction false} AndStart(s: Lexed, i: nat, e: Expr, n: nat)
    requires AllWellformed(s.tokens) && i <= |s.tokens|
    requires ParseUnary(s, i) == Success(Parsed(e, n))
    ensures ParseAnd(s, i) == ParseAndRest(s, e, n)
  {
  }

  /** `l and r` as a conjunction: `l`'s chain, then one more operand. */
  lemma {:induction false} ConjChain(s: Lexed, i: nat, l: Expr, r: Expr, n: nat)
    requires AllWellformed(s.tokens) && AtConj(s.tokens, i, Conj(l, r))
    requires n == i + ConjWidth(Conj(l, r))
    ensures ParseAnd(s, i) == ParseAndRest(s, Conj(l, r), n)
    decreases Conj(l, r), 1
  {
    var p := i + ConjWidth(l);
    ConjChainParts(s.tokens, i, l, r);
    ConjParses(s, i, l, p);
    OperandParses(s, p + 1, r, n);
    AndChainStep(s, i, l, p, r, n);
  }

  /** Tokens laid out as `PrintDisj` writes them, followed by anything but
      `and`, are a disjunction that goes on with `e` as its left part
      right after them. */
  lemma {:induction false} DisjParses(s: Lexed, i: nat, e: Expr, n: nat)
    requires AllWellformed(s.tokens) && AtDisj(s.tokens, i, e)
    requires n == i + DisjWidth(e) && !KindAt(s.tokens, n, AND)
    ensures n <= |s.tokens| && ParseOr(s, i) == ParseOrRest(s, e, n)
    decreases e, 3
  {
    match e
    case Disj(l, r) => DisjChain(s, i, l, r, n);
    case _ =>
      DisjOfConj(s.tokens, i, e);
      ConjParses(s, i, e, n);
      OrStart(s, i, e, n);
  }

  /** `l or r` as a disjunction: `l`'s chain, then one more conjunction. */
  lemma {:induction false} DisjChain(s: Lexed, i: nat, l: Expr, r: Expr, n: nat)
    requires AllWellformed(s.tokens) && AtDisj(s.tokens, i, Disj(l, r))
    requires n == i + DisjWidth(Disj(l, r)) && !KindAt(s.tokens, n, AND)
    ensures n <= |s.tokens| && ParseOr(s, i) == ParseOrRest(s, Disj(l, r), n)
    decreases Disj(l, r), 2
  {
    var p := i + DisjWidth(l);
    DisjChainParts(s.tokens, i, l, r);
    DisjParses(s, i, l, p);
    ConjParses(s, p + 1, r, n);
    OrChainStep(s, i, l, p, r, n);
  }

  // ----- the printed tokens are well formed --------------------------------------

  lemma {:induction false} MinWellformed(e: Expr)
    ensures AllWellformed(PrintOperand(e)) && AllWellformed(PrintConj(e)) && AllWellformed(PrintDisj(e))
  {
    match e
    case Compare(_, _, _) => PrintWellformed(e);
    case Member(_, _) => PrintWellformed(e);
    case Negation(inner) =>
      MinWellformed(inner);
      ConcatWellformed([Punct(NOT)], PrintOperand(inner));
    case Conj(l, r) =>
      MinWellformed(l);
      MinWellformed(r);
      InfixWellformed(PrintConj(l), AND, PrintOperand(r));
    case Disj(l, r) =>
      MinWellformed(l);
      MinWellformed(r);
      InfixWellformed(PrintDisj(l), OR, PrintConj(r));
  }

  /** `l op r` and `( l op r )` are well formed when `l` and `r` are. */
  lemma {:induction false} InfixWellformed(l: seq<Token>, op: Kind, r: seq<Token>)
    requires op in {AND, OR} && AllWellformed(l) && AllWellformed(r)
    ensures AllWellformed(l + [Punct(op)] + r)
    ensures AllWellformed([Punct(LPAREN)] + (l + [Punct(op)] + r) + [Punct(RPAREN)])
  {
    ConcatWellformed(l, [Punct(op)]);
    ConcatWellformed(l + [Punct(op)], r);
    ConcatWellformed([Punct(LPAREN)], l + [Punct(op)] + r);
    ConcatWellformed([Punct(LPAREN)] + (l + [Punct(op)] + r), [Punct(RPAREN)]);
  }

  // ----- the round trip ------------------------------------------------------

  /** Round trip with the fewest parentheses: the printed tokens parse back
      to the tree, so the parser groups bare `and`, `or` and `not` chains
      exactly as the tree does. */
  lemma {:induction false} RoundTripMin(e: Expr)
    requires Printable(e)
    ensures AllWellformed(PrintMin(e))
    ensures ParseFilter(Lexed(PrintMin(e), Finished)) == Success(e)
  {
    var s := Lexed(PrintMin(e), Finished);
    MinWellformed(e);
    PrintedDisj(e);
    DisjParses(s, 0, e, |s.tokens|);
    RestStops(s, e, |s.tokens|);
    FilterFromOr(s, e);
  }

  /** Every tree the parser returns prints, with all parentheses or with
      the fewest, to tokens that parse back to that same tree. */
  lemma {:induction false} ParsedReprints(s: Lexed, e: Expr)
    requires AllWellformed(s.tokens) && ParseFilter(s) == Success(e)
    ensures AllWellformed(Print(e)) && AllWellformed(PrintMin(e))
    ensures ParseFilter(Lexed(Print(e), Finished)) == Success(e)
    ensures ParseFilter(Lexed(PrintMin(e), Finished)) == Success(e)
  {
    RoundTrip(e);
    RoundTripMin(e);
  }

  /** Regrouping a concatenation of seven pieces. */
  lemma {:induction false} Flatten(a: seq<Token>, b: seq<Token>, c: seq<Token>, d: seq<Token>)
    ensures a + [Punct(OR)] + (b + [Punct(AND)] + c) + [Punct(OR)] + d
            == a + [Punct(OR)] + b + [Punct(AND)] + c + [Punct(OR)] + d
  {
  }

  /** `a or b and c or d` over four comparisons is printed with no
      parentheses at all and reads as `(a or (b and c)) or d`. */
  lemma {:induction false} MixedChain(a: Expr, b: Expr, c: Expr, d: Expr)
    requires a.Compare? && b.Compare? && c.Compare? && d.Compare?
    requires Printable(a) && Printable(b) && Printable(c) && Printable(d)
    ensures PrintMin(Disj(Disj(a, Conj(b, c)), d))
              == Print(a) + [Punct(OR)] + Print(b) + [Punct(AND)] + Print(c) + [Punct(OR)] + Print(d)
    ensures AllWellformed(Print(a) + [Punct(OR)] + Print(b) + [Punct(AND)] + Print(c) + [Punct(OR)] + Print(d))
    ensures ParseFilter(Lexed(Print(a) + [Punct(OR)] + Print(b) + [Punct(AND)] + Print(c) + [Punct(OR)] + Print(d), Finished))
              == Success(Disj(Disj(a, Conj(b, c)), d))
  {
    var e := Disj(Disj(a, Conj(b, c)), d);
    assert PrintOperand(b) == Print(b) && PrintConj(b) == Print(b);
    assert PrintOperand(c) == Print(c);
    assert PrintOperand(a) == Print(a) && PrintConj(a) == Print(a) && PrintDisj(a) == Print(a);
    assert PrintOperand(d) == Print(d) && PrintConj(d) == Print(d);
    assert PrintConj(Conj(b, c)) == Print(b) + [Punct(AND)] + Print(c);
    assert PrintDisj(Disj(a, Conj(b, c))) == Print(a) + [Punct(OR)] + (Print(b) + [Punct(AND)] + Print(c));
    Flatten(Print(a), Print(b), Print(c), Print(d));
    assert Printable(Conj(b, c));
    assert Printable(Disj(a, Conj(b, c)));
    RoundTripMin(e);
  }
}
