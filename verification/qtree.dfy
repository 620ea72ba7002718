/** The semantic actions of the grammar: how each parse-tree node becomes a
    Django `Q` lookup tree. `Q(**{key: value})` is a leaf; `a & b` and
    `a | b` build a binary node; `negate()` toggles the node's `negated`
    flag in place, so negation never adds a node. The flattening Django
    applies when it combines nodes with the same connector is not part of
    this model. */
module QTree {
  import opened Tokens
  import opened Grammar

  datatype Connector = And | Or

  datatype Q =
    | Leaf(key: string, value: Value, negated: bool)
    | Node(connector: Connector, left: Q, right: Q, negated: bool)

  /** `q.negate()`: only the flag changes. */
  function Negate(q: Q): (r: Q)
    ensures r.negated == !q.negated
    ensures r.(negated := q.negated) == q
  {
    q.(negated := !q.negated)
  }

  /** The field lookups a key can ask for; the suffix Django reads after the
      field path. */
  datatype Lookup = Exact | IExact | LessThan | LessEqual | GreaterThan | GreaterEqual | Within

  function Suffix(l: Lookup): string {
    match l
    case Exact => ""
    case IExact => "__iexact"
    case LessThan => "__lt"
    case LessEqual => "__lte"
    case GreaterThan => "__gt"
    case GreaterEqual => "__gte"
    case Within => "__in"
  }

  /** The lookup `p_rule_binary` selects: case-insensitive equality for a
      string compared with `=` or `!=`, plain equality for an integer, and
      the ordering lookups by operator. */
  function LookupFor(op: CmpOp, v: Value): (l: Lookup)
    ensures l == IExact <==> (op == Eq || op == NotEq) && v.Str?
    ensures l == Exact <==> (op == Eq || op == NotEq) && v.Int?
    ensures l == LessThan <==> op == Lt
    ensures l == LessEqual <==> op == Lte
    ensures l == GreaterThan <==> op == Gt
    ensures l == GreaterEqual <==> op == Gte
    ensures l != Within
  {
    if (op == Eq || op == NotEq) && v.Str? then IExact
    else if op == Lt then LessThan
    else if op == Lte then LessEqual
    else if op == Gt then GreaterThan
    else if op == Gte then GreaterEqual
    else assert op.Eq? || op.NotEq?; assert v.Int?; Exact
  }

  /** The keyword argument name of the leaf a comparison builds. */
  function Key(attr: string, op: CmpOp, v: Value): string {
    attr + Suffix(LookupFor(op, v))
  }

  /** The value `p_rule_in` passes: `p[3]`, the value of the `'['` token,
      not the parsed list. */
  const BracketValue: Value := Str("[")

  /** The tree the grammar actions build for a parse tree. */
  function Compile(e: Expr): (q: Q)
    ensures e.Compare? || e.Member? ==> q.Leaf?
    ensures e.Conj? ==> q.Node? && q.connector == And && !q.negated
    ensures e.Disj? ==> q.Node? && q.connector == Or && !q.negated
  {
    match e
    case Compare(attr, op, v) => Leaf(Key(attr, op, v), v, op == NotEq)
    case Member(attr, _) => Leaf(attr + Suffix(Within), BracketValue, false)
    case Conj(l, r) => Node(And, Compile(l), Compile(r), false)
    case Disj(l, r) => Node(Or, Compile(l), Compile(r), false)
    case Negation(inner) => Negate(Compile(inner))
  }

  // ----- reading a key back ------------------------------------------------

  predicate EndsWith(s: string, suffix: string) {
    |suffix| <= |s| && s[|s| - |suffix|..] == suffix
  }

  /** How a key is read back: the field path and the lookup named by its
      last `__` part, or an exact match when there is none. */
  function SplitKey(key: string): (string, Lookup) {
    if EndsWith(key, "__iexact") then (key[..|key| - 8], IExact)
    else if EndsWith(key, "__lte") then (key[..|key| - 5], LessEqual)
    else if EndsWith(key, "__lt") then (key[..|key| - 4], LessThan)
    else if EndsWith(key, "__gte") then (key[..|key| - 5], GreaterEqual)
    else if EndsWith(key, "__gt") then (key[..|key| - 4], GreaterThan)
    else if EndsWith(key, "__in") then (key[..|key| - 4], Within)
    else (key, Exact)
  }

  /** A field path that does not itself end in a lookup name. */
  predicate PlainPath(attr: string) {
    forall l :: l != Exact ==> !EndsWith(attr, Suffix(l))
  }

  // ----- what a tree means --------------------------------------------------

  /** Whether a record passes `q`, given which leaf lookups it satisfies:
      a node combines its children with its connector, and a set flag
      negates the whole node. */
  function Holds(q: Q, leaf: (string, Value) -> bool): bool {
    var plain := match q
      case Leaf(key, v, _) => leaf(key, v)
      case Node(c, l, r, _) => if c == And then Holds(l, leaf) && Holds(r, leaf) else Holds(l, leaf) || Holds(r, leaf);
    if q.negated then !plain else plain
  }

  /** A search expression read as logic: `!=` and `not` are negation,
      `and`/`or` are conjunction and disjunction. It differs from `Compile`
      only in negating directly instead of through the `negated` flag; the
      leaves are the ones the actions build, so an `in` list still reads
      as the single value `'['`. */
  function Meaning(e: Expr, leaf: (string, Value) -> bool): bool {
    match e
    case Compare(attr, op, v) =>
      if op == NotEq then !leaf(Key(attr, Eq, v), v) else leaf(Key(attr, op, v), v)
    case Member(attr, _) => leaf(attr + "__in", BracketValue)
    case Conj(l, r) => Meaning(l, leaf) && Meaning(r, leaf)
    case Disj(l, r) => Meaning(l, leaf) || Meaning(r, leaf)
    case Negation(inner) => !Meaning(inner, leaf)
  }

  // ----- properties of the actions ---------------------------------------

  /** Toggling twice restores the tree. */
  lemma NegateTwice(q: Q)
    ensures Negate(Negate(q)) == q
  {
  }

  /** The toggled flag is logical negation. */
  lemma NegateFlips(q: Q, leaf: (string, Value) -> bool)
    ensures Holds(Negate(q), leaf) == !Holds(q, leaf)
  {
  }

  /** `!=` builds the leaf `=` builds, with the flag set. */
  lemma NotEqualIsNegatedEqual(attr: string, v: Value)
    ensures Compile(Compare(attr, NotEq, v)) == Negate(Compile(Compare(attr, Eq, v)))
    ensures Compile(Compare(attr, NotEq, v)).negated
  {
  }

  /** `not not e` ends un-negated: the same tree as `e`. */
  lemma DoubleNegationVanishes(e: Expr)
    ensures Compile(Negation(Negation(e))) == Compile(e)
  {
    NegateTwice(Compile(e));
  }

  /** `not (x != v)` is the plain equality leaf. */
  lemma NegatedNotEqualIsEqual(attr: string, v: Value)
    ensures Compile(Negation(Compare(attr, NotEq, v))) == Compile(Compare(attr, Eq, v))
    ensures !Compile(Negation(Compare(attr, NotEq, v))).negated
  {
  }

  /** The membership leaf does not depend on the listed values: its value
      is always the bracket token's text. */
  lemma MembershipIgnoresList(attr: string, xs: seq<Value>, ys: seq<Value>)
    ensures Compile(Member(attr, xs)) == Compile(Member(attr, ys))
    ensures Compile(Member(attr, xs)) == Leaf(attr + "__in", Str("["), false)
  {
  }

  /** Negation by toggling agrees with the expected reading: every compiled
      tree holds exactly when the expression's meaning does. */
  lemma {:induction false} CompileMeaning(e: Expr, leaf: (string, Value) -> bool)
    ensures Holds(Compile(e), leaf) == Meaning(e, leaf)
  {
    match e
    case Compare(attr, op, v) =>
      assert LookupFor(NotEq, v) == LookupFor(Eq, v);
    case Member(_, _) =>
    case Conj(l, r) =>
      CompileMeaning(l, leaf);
      CompileMeaning(r, leaf);
    case Disj(l, r) =>
      CompileMeaning(l, leaf);
      CompileMeaning(r, leaf);
    case Negation(inner) =>
      CompileMeaning(inner, leaf);
      NegateFlips(Compile(inner), leaf);
  }

  /** A key whose last characters differ from a suffix's does not end
      with that suffix. */
  lemma EndsDiffer(key: string, suffix: string, j: nat)
    requires j < |suffix| && j < |key| && key[|key| - 1 - j] != suffix[|suffix| - 1 - j]
    ensures !EndsWith(key, suffix)
  {
    if |suffix| <= |key| {
      assert key[|key| - |suffix|..][|suffix| - 1 - j] == key[|key| - 1 - j];
    }
  }

  /** A path followed by a lookup's suffix reads back as that path and
      lookup. */
  lemma SuffixedKey(attr: string, l: Lookup)
    requires PlainPath(attr) && l != Exact
    ensures SplitKey(attr + Suffix(l)) == (attr, l)
  {
    var key := attr + Suffix(l);
    var n := |key|;
    assert EndsWith(key, Suffix(l)) by {
      assert key[n - |Suffix(l)|..] == Suffix(l);
    }
    assert key[..n - |Suffix(l)|] == attr;
    assert key[n - 1] == Suffix(l)[|Suffix(l)| - 1];
    assert key[n - 2] == Suffix(l)[|Suffix(l)| - 2];
    assert key[n - 3] == Suffix(l)[|Suffix(l)| - 3];
    match l
    case IExact =>
    case LessEqual =>
      EndsDiffer(key, "__iexact", 0);
    case LessThan =>
      EndsDiffer(key, "__iexact", 1);
      EndsDiffer(key, "__lte", 0);
    case GreaterEqual =>
      EndsDiffer(key, "__iexact", 0);
      EndsDiffer(key, "__lte", 2);
      EndsDiffer(key, "__lt", 0);
    case GreaterThan =>
      EndsDiffer(key, "__iexact", 1);
      EndsDiffer(key, "__lte", 0);
      EndsDiffer(key, "__lt", 1);
      EndsDiffer(key, "__gte", 0);
    case Within =>
      EndsDiffer(key, "__iexact", 0);
      EndsDiffer(key, "__lte", 0);
      EndsDiffer(key, "__lt", 0);
      EndsDiffer(key, "__gte", 0);
      EndsDiffer(key, "__gt", 0);
  }

  /** The key of a comparison reads back as the field path and the lookup
      the operator and value select, for any path not already ending in a
      lookup name. */
  lemma KeyRoundTrip(attr: string, op: CmpOp, v: Value)
    requires PlainPath(attr)
    ensures SplitKey(Key(attr, op, v)) == (attr, LookupFor(op, v))
  {
    var l := LookupFor(op, v);
    if l == Exact {
      assert Key(attr, op, v) == attr;
      assert !EndsWith(attr, Suffix(IExact)) && !EndsWith(attr, Suffix(LessEqual)) && !EndsWith(attr, Suffix(LessThan));
      assert !EndsWith(attr, Suffix(GreaterEqual)) && !EndsWith(attr, Suffix(GreaterThan)) && !EndsWith(attr, Suffix(Within));
    } else {
      SuffixedKey(attr, l);
    }
  }
}
