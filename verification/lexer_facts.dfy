/** What the lexer makes of each kind of lexeme, whatever text follows it:
    which rule wins, how long the token is and what value it carries. */
module LexerFacts {
  import opened Wrappers
  import opened Tokens
  import opened Lexer

  // ----- the alternations -----------------------------------------------------

  /** The text each operator pattern matches, in table order. */
  const OperatorLexemes: seq<string> := ["=", "!=", ">=", ">", "<=", "<", "in", "and", "or"]

  lemma OperatorPatternsUnescaped(k: nat)
    requires k < |OperatorPatterns|
    ensures Unescape(OperatorPatterns[k]) == OperatorLexemes[k]
  {
    if k == 2 {
      assert Unescape("\\>=") == [ '>' ] + Unescape("=");
    } else if k == 3 {
      assert Unescape("\\>") == [ '>' ] + Unescape("");
    } else if k == 4 {
      assert Unescape("\\<=") == [ '<' ] + Unescape("=");
    } else if k == 5 {
      assert Unescape("\\<") == [ '<' ] + Unescape("");
    }
  }

  /** A pattern without a backslash matches exactly its own text. */
  lemma {:induction false} PlainUnescaped(p: string)
    requires forall k :: 0 <= k < |p| ==> p[k] != '\\'
    ensures Unescape(p) == p
  {
    if |p| > 0 {
      PlainUnescaped(p[1..]);
    }
  }

  /** No backslash in the attribute table: each alternative matches itself. */
  lemma AttributesUnescaped(k: nat)
    requires k < |Attributes|
    ensures Unescape(Attributes[k]) == Attributes[k]
  {
    PlainUnescaped(Attributes[k]);
  }

  lemma OperatorFirstChar(j: nat)
    requires j < |OperatorLexemes|
    ensures |OperatorLexemes[j]| > 0 && Lower(OperatorLexemes[j][0]) in {'=', '!', '>', '<', 'i', 'a', 'o'}
  {
  }

  lemma AttributeFirstChar(j: nat)
    requires j < |Attributes|
    ensures |Attributes[j]| > 0 && Lower(Attributes[j][0]) in {'k', 'l', 'i', 'd', 'e', 'u'}
  {
  }

  /** The alternation picks the first pattern that matches. */
  lemma FirstMatch(s: string, patterns: seq<string>, k: nat)
    requires k < |patterns| && StartsWithFolded(s, Unescape(patterns[k]))
    requires forall j :: 0 <= j < k ==> !StartsWithFolded(s, Unescape(patterns[j]))
    ensures Alternation(s, patterns) == Some(k)
  {
  }

  /** A text matches an alternative only if its first character does. */
  lemma FirstCharDiffers(s: string, w: string)
    requires 0 < |s| && 0 < |w| && Lower(s[0]) != Lower(w[0])
    ensures !StartsWithFolded(s, w)
  {
  }

  /** Text that starts with none of the operators' first characters. */
  lemma NoOperator(s: string)
    requires 0 < |s| && Lower(s[0]) !in {'=', '!', '>', '<', 'i', 'a', 'o'}
    ensures Alternation(s, OperatorPatterns) == None
  {
    forall j | 0 <= j < |OperatorPatterns|
      ensures !StartsWithFolded(s, Unescape(OperatorPatterns[j]))
    {
      OperatorPatternsUnescaped(j);
      OperatorFirstChar(j);
      FirstCharDiffers(s, OperatorLexemes[j]);
    }
  }

  /** Text that starts with none of the attributes' first characters. */
  lemma NoAttribute(s: string)
    requires 0 < |s| && Lower(s[0]) !in {'k', 'l', 'i', 'd', 'e', 'u'}
    ensures Alternation(s, Attributes) == None
  {
    forall j | 0 <= j < |Attributes|
      ensures !StartsWithFolded(s, Unescape(Attributes[j]))
    {
      AttributesUnescaped(j);
      AttributeFirstChar(j);
      FirstCharDiffers(s, Attributes[j]);
    }
  }

  // ----- strings and integers --------------------------------------------------

  /** A quoted run becomes a STRING token whose value is the text between
      the quotes, taken as it is. */
  lemma StringLexed(q: char, body: string, rest: string)
    requires IsQuote(q) && forall k :: 0 <= k < |body| ==> body[k] != q
    ensures NextToken([q] + body + [q] + rest) == Emit(STRING, Str(body), |body| + 2)
  {
    var s := [q] + body + [q] + rest;
    assert s[|body| + 1] == q;
    var n := StringMatch(s);
    assert n == |body| + 2;
    assert s[1..n - 1] == body;
  }

  function DigitChar(d: nat): char
    requires d < 10
  {
    ('0' as int + d) as char
  }

  /** The decimal digits of `n`, most significant first, with no leading
      zero. */
  function Digits(n: nat): (ds: string)
    ensures 0 < |ds| && forall k :: 0 <= k < |ds| ==> IsDigit(ds[k])
  {
    if n < 10 then [DigitChar(n)] else Digits(n / 10) + [DigitChar(n % 10)]
  }

  /** How an integer is written in a search string. */
  function Decimal(x: int): (t: string)
    ensures IsIntegerLexeme(t)
  {
    if x < 0 then "-" + Digits(-x) else Digits(x)
  }

  /** Reading the digits back gives the number. */
  lemma {:induction false} DigitsRoundTrip(n: nat)
    ensures DigitsValue(Digits(n)) == n
  {
    var ds := Digits(n);
    if n >= 10 {
      DigitsRoundTrip(n / 10);
      assert ds[..|ds| - 1] == Digits(n / 10);
    }
  }

  /** `int` of a written integer is that integer. */
  lemma DecimalRoundTrip(x: int)
    ensures IntValue(Decimal(x)) == x
  {
    if x < 0 {
      DigitsRoundTrip(-x);
      assert Decimal(x)[1..] == Digits(-x);
    } else {
      DigitsRoundTrip(x);
    }
  }

  /** A written integer not followed by a digit becomes one INTEGER token
      with its signed value. */
  lemma IntegerLexed(x: int, rest: string)
    requires |rest| == 0 || !IsDigit(rest[0])
    ensures NextToken(Decimal(x) + rest) == Emit(INTEGER, Int(x), |Decimal(x)|)
  {
    var t := Decimal(x);
    var s := t + rest;
    assert s[..|t|] == t;
    var n := IntegerMatch(s);
    assert n == |t|;
    DecimalRoundTrip(x);
  }

  // ----- operators and keywords -------------------------------------------------

  /** The operator alternation picks entry `idx` when it is the first whose
      text starts the input. */
  lemma OperatorMatched(s: string, idx: nat)
    requires idx < |OperatorPatterns| && StartsWithFolded(s, OperatorLexemes[idx])
    requires forall j :: 0 <= j < idx ==> !StartsWithFolded(s, OperatorLexemes[j])
    ensures Alternation(s, OperatorPatterns) == Some(idx)
    ensures Unescape(OperatorPatterns[idx]) == OperatorLexemes[idx]
  {
    forall j | 0 <= j <= idx
      ensures Unescape(OperatorPatterns[j]) == OperatorLexemes[j]
    {
      OperatorPatternsUnescaped(j);
    }
    FirstMatch(s, OperatorPatterns, idx);
  }

  /** The position of a comparison operator in the operator table. */
  function ComparisonIndex(k: Kind): (idx: nat)
    requires k in {EQUAL, NOTEQUAL, GREATEREQUAL, GREATER, LESSEQUAL, LESS}
    ensures idx < 6 && OperatorLexemes[idx] == Spelling(k)
    ensures 0 < |Spelling(k)| && Spelling(k)[0] in {'=', '!', '>', '<'}
  {
    match k
    case EQUAL => 0 case NOTEQUAL => 1 case GREATEREQUAL => 2
    case GREATER => 3 case LESSEQUAL => 4 case LESS => 5
  }

  /** Text that the string and integer rules pass over and the operator
      alternation matches is handled by `t_BINARYOP`. */
  lemma OperatorNext(s: string, idx: nat)
    requires 0 < |s| && !IsQuote(s[0]) && s[0] != '-' && !IsDigit(s[0])
    requires Alternation(s, OperatorPatterns) == Some(idx)
    ensures |Unescape(OperatorPatterns[idx])| <= |s|
    ensures NextToken(s) == OperatorStep(s[..|Unescape(OperatorPatterns[idx])|])
  {
    PatternsNonEmpty(OperatorPatterns, idx);
  }

  /** Each operator's own text finds its kind in the operator table. */
  lemma OperatorKnown(k: Kind)
    requires IsOperatorKind(k)
    ensures OperatorStep(Spelling(k)) == Emit(k, Str(Spelling(k)), |Spelling(k)|)
  {
    if k in {GREATEREQUAL, GREATER, LESSEQUAL, LESS} {
      AngleKnown(k);
    } else {
      PlainKnown(k);
    }
  }

  /** `>` and `<` are escaped before the lookup, and the table's keys are
      escaped the same way. */
  lemma AngleKnown(k: Kind)
    requires k in {GREATEREQUAL, GREATER, LESSEQUAL, LESS}
    ensures OperatorStep(Spelling(k)) == Emit(k, Str(Spelling(k)), |Spelling(k)|)
  {
    match k
    case GREATEREQUAL => assert Escape(">=") == "\\>=";
    case GREATER => assert Escape(">") == "\\>";
    case LESSEQUAL => assert Escape("<=") == "\\<=";
    case LESS => assert Escape("<") == "\\<";
  }

  lemma PlainKnown(k: Kind)
    requires k in {EQUAL, NOTEQUAL, IN, AND, OR}
    ensures OperatorStep(Spelling(k)) == Emit(k, Str(Spelling(k)), |Spelling(k)|)
  {
    match k
    case EQUAL => assert Escape("=") == "=";
    case NOTEQUAL => assert Escape("!=") == "!=";
    case IN => assert Escape("in") == "in";
    case AND => assert Escape("and") == "and";
    case OR => assert Escape("or") == "or";
  }

  /** Text `w` that the operator alternation matches at an entry as long
      as `w` is looked up in the operator table. */
  lemma OperatorLexed(w: string, rest: string, idx: nat)
    requires 0 < |w| && !IsQuote(w[0]) && w[0] != '-' && !IsDigit(w[0])
    requires idx < |OperatorPatterns| && |OperatorLexemes[idx]| == |w|
    requires Alternation(w + rest, OperatorPatterns) == Some(idx)
    ensures NextToken(w + rest) == OperatorStep(w)
  {
    var s := w + rest;
    OperatorPatternsUnescaped(idx);
    OperatorNext(s, idx);
    assert s[..|w|] == w;
  }

  /** No operator listed before a comparison operator starts `w + rest`. */
  lemma EarlierComparisonsMiss(k: Kind, rest: string)
    requires k in {EQUAL, NOTEQUAL, GREATEREQUAL, GREATER, LESSEQUAL, LESS}
    requires k in {GREATER, LESS} ==> |rest| == 0 || rest[0] != '='
    ensures StartsWithFolded(Spelling(k) + rest, OperatorLexemes[ComparisonIndex(k)])
    ensures forall j :: 0 <= j < ComparisonIndex(k) ==> !StartsWithFolded(Spelling(k) + rest, OperatorLexemes[j])
  {
    var w := Spelling(k);
    var s := w + rest;
    assert s[..|w|] == w;
    assert s[0] == w[0];
    assert |w| == 2 ==> s[1] == w[1];
    assert |w| == 1 && |rest| > 0 ==> s[1] == rest[0];
    forall j | 0 <= j < ComparisonIndex(k)
      ensures !StartsWithFolded(s, OperatorLexemes[j])
    {
      if 1 < |s| && Lower(s[0]) == Lower(OperatorLexemes[j][0]) {
        assert !(Lower(s[1]) == Lower(OperatorLexemes[j][1]));
      }
    }
  }

  /** The operator alternation picks a comparison operator's own entry. */
  lemma ComparisonMatched(k: Kind, rest: string)
    requires k in {EQUAL, NOTEQUAL, GREATEREQUAL, GREATER, LESSEQUAL, LESS}
    requires k in {GREATER, LESS} ==> |rest| == 0 || rest[0] != '='
    ensures Alternation(Spelling(k) + rest, OperatorPatterns) == Some(ComparisonIndex(k))
  {
    EarlierComparisonsMiss(k, rest);
    OperatorMatched(Spelling(k) + rest, ComparisonIndex(k));
  }

  /** A comparison operator lexes as itself: `!=`, `>=` and `<=` are listed
      before `=`, `>` and `<`, so `>` or `<` is a token of its own only when
      no `=` follows. */
  lemma ComparisonLexed(k: Kind, rest: string)
    requires k in {EQUAL, NOTEQUAL, GREATEREQUAL, GREATER, LESSEQUAL, LESS}
    requires k in {GREATER, LESS} ==> |rest| == 0 || rest[0] != '='
    ensures NextToken(Spelling(k) + rest) == Emit(k, Str(Spelling(k)), |Spelling(k)|)
  {
    var w := Spelling(k);
    var s := w + rest;
    var idx := ComparisonIndex(k);
    ComparisonMatched(k, rest);
    OperatorLexed(w, rest, idx);
    OperatorKnown(k);
  }

  /** The position of `in`, `and` and `or` in the operator table. */
  function KeywordIndex(k: Kind): (idx: nat)
    requires k in {IN, AND, OR}
    ensures 6 <= idx < 9 && OperatorLexemes[idx] == Spelling(k)
  {
    match k
    case IN => 6 case AND => 7 case OR => 8
  }

  /** A lexeme that spells an operator keyword in any mix of cases. */
  predicate KeywordCased(k: Kind, w: string) {
    k in {IN, AND, OR} && |w| == |Spelling(k)| && StartsWithFolded(w, Spelling(k))
  }

  /** Escaping changes only `>` and `<`. */
  lemma {:induction false} EscapeLetters(w: string)
    requires forall i :: 0 <= i < |w| ==> w[i] != '>' && w[i] != '<'
    ensures Escape(w) == w
  {
    if |w| > 0 {
      EscapeLetters(w[1..]);
    }
  }

  /** The operator alternation picks a keyword's entry for the keyword in
      any case. */
  lemma KeywordMatched(k: Kind, w: string, rest: string)
    requires KeywordCased(k, w)
    ensures Alternation(w + rest, OperatorPatterns) == Some(KeywordIndex(k))
  {
    var s := w + rest;
    var idx := KeywordIndex(k);
    assert s[..|w|] == w;
    forall j | 0 <= j < idx
      ensures !StartsWithFolded(s, OperatorLexemes[j])
    {
      OperatorFirstChar(j);
      FirstCharDiffers(s, OperatorLexemes[j]);
    }
    OperatorMatched(s, idx);
  }

  /** A word that starts with a letter is a key of the operator table only
      when it is one of the lowercase keywords. */
  lemma NotAKey(w: string)
    requires 0 < |w| && Lower(w[0]) in {'i', 'a', 'o'} && w !in {"in", "and", "or"}
    ensures w !in BinaryOperators
  {
    assert w[0] != '=' && w[0] != '!' && w[0] != '\\';
  }

  /** The table is keyed by the lowercase keywords only. */
  lemma KeywordLookup(k: Kind, w: string)
    requires KeywordCased(k, w)
    ensures OperatorStep(w) == if w == Spelling(k) then Emit(k, Str(w), |w|) else BadOperator(w)
  {
    if w == Spelling(k) {
      OperatorKnown(k);
    } else {
      EscapeLetters(w);
      assert Lower(w[0]) == Spelling(k)[0];
      NotAKey(w);
    }
  }

  /** `in`, `and` and `or` match whatever their case, but only the
      lowercase spelling is a key of the operator table: `AND` fails the
      lookup. */
  lemma KeywordLexed(k: Kind, w: string, rest: string)
    requires KeywordCased(k, w)
    ensures NextToken(w + rest) == if w == Spelling(k) then Emit(k, Str(w), |w|) else BadOperator(w)
  {
    KeywordMatched(k, w, rest);
    OperatorLexed(w, rest, KeywordIndex(k));
    KeywordLookup(k, w);
  }

  // ----- attributes ----------------------------------------------------------------

  /** A lexeme that spells attribute `k` of the table in any mix of cases. */
  predicate AttributeCased(k: nat, w: string) {
    k < |Attributes| && |w| == |Attributes[k]| && StartsWithFolded(w, Attributes[k])
  }

  /** No attribute listed before entry `k` starts `w + rest`. */
  lemma EarlierAttributesMiss(k: nat, w: string, rest: string)
    requires AttributeCased(k, w)
    ensures forall j :: 0 <= j < k ==> !StartsWithFolded(w + rest, Attributes[j])
  {
    var s := w + rest;
    assert s[..|w|] == w;
    forall j | 0 <= j < k
      ensures !StartsWithFolded(s, Attributes[j])
    {
      if Lower(s[0]) == Lower(Attributes[j][0]) {
        assert Lower(s[1]) != Lower(Attributes[j][1]);
      }
    }
  }

  /** The attribute alternation picks entry `k` for its name in any case. */
  lemma AttributeMatched(k: nat, w: string, rest: string)
    requires AttributeCased(k, w)
    ensures Alternation(w + rest, Attributes) == Some(k)
  {
    var s := w + rest;
    assert s[..|w|] == w;
    EarlierAttributesMiss(k, w, rest);
    forall j | 0 <= j <= k
      ensures Unescape(Attributes[j]) == Attributes[j]
    {
      AttributesUnescaped(j);
    }
    FirstMatch(s, Attributes, k);
  }

  /** Text that no earlier rule matches and the attribute alternation
      matches is handled by `t_ATTRIBUTE`. */
  lemma AttributeNext(s: string, k: nat)
    requires 0 < |s| && !IsQuote(s[0]) && s[0] != '-' && !IsDigit(s[0])
    requires Alternation(s, OperatorPatterns) == None && Alternation(s, Attributes) == Some(k)
    ensures |Unescape(Attributes[k])| <= |s|
    ensures NextToken(s) == Emit(ATTRIBUTE, Str(Resolve(s[..|Unescape(Attributes[k])|])), |Unescape(Attributes[k])|)
  {
    PatternsNonEmpty(Attributes, k);
  }

  /** Every attribute name except `institution` lexes as one ATTRIBUTE
      token, whatever follows it and whatever its case; the token's value
      is the renamed field path for the exact names `doi`, `keyword` and
      `electrodes`, and the lexeme itself otherwise. */
  lemma AttributeLexed(k: nat, w: string, rest: string)
    requires AttributeCased(k, w) && k != 2
    ensures NextToken(w + rest) == Emit(ATTRIBUTE, Str(Resolve(w)), |w|)
  {
    var s := w + rest;
    assert s[..|w|] == w;
    AttributeFirstChar(k);
    assert Lower(s[0]) == Lower(Attributes[k][0]);
    assert Lower(s[0]) != 'i' by {
      assert Attributes[k][0] != 'i';
    }
    NoOperator(s);
    AttributeMatched(k, w, rest);
    AttributesUnescaped(k);
    AttributeNext(s, k);
  }

  /** `doi` is renamed to the field path it stands for... */
  lemma DoiRenamed(rest: string)
    ensures NextToken("doi" + rest) == Emit(ATTRIBUTE, Str("related_publications__doi"), 3)
  {
    assert AttributeCased(3, "doi");
    AttributeLexed(3, "doi", rest);
  }

  /** ...but renaming is exact-case: `DOI` is kept as written. */
  lemma UpperDoiKept(rest: string)
    ensures NextToken("DOI" + rest) == Emit(ATTRIBUTE, Str("DOI"), 3)
  {
    assert AttributeCased(3, "DOI");
    AttributeLexed(3, "DOI", rest);
  }

  // ----- the string rules, literals and t_error --------------------------------------

  /** Text that neither table matches falls through to the string rules,
      the literals and `t_error`. */
  lemma TailNext(s: string)
    requires 0 < |s| && StringMatch(s) == 0 && s[0] != '-' && !IsDigit(s[0])
    requires Alternation(s, OperatorPatterns) == None && Alternation(s, Attributes) == None
    ensures NextToken(s) == TailStep(s)
  {
  }

  /** A character that starts no string, integer, operator or attribute. */
  predicate StartsNoTable(c: char) {
    !IsQuote(c) && c != '-' && !IsDigit(c) && Lower(c) !in {'=', '!', '>', '<', 'i', 'a', 'o', 'k', 'l', 'd', 'e', 'u'}
  }

  lemma TailFrom(s: string)
    requires 0 < |s| && StartsNoTable(s[0])
    ensures NextToken(s) == TailStep(s)
  {
    NoOperator(s);
    NoAttribute(s);
    TailNext(s);
  }

  /** Whitespace and `#` comments are skipped, never emitted. */
  lemma BlankSkipped(s: string)
    requires 0 < |s| && (IsSpace(s[0]) || s[0] == '#')
    ensures NextToken(s).Skip?
  {
    TailFrom(s);
  }

  /** A comment runs to the end of the line, not past it. */
  lemma CommentSkipped(body: string, rest: string)
    requires forall k :: 0 <= k < |body| ==> body[k] != '\n'
    requires |rest| == 0 || rest[0] == '\n'
    ensures NextToken("#" + body + rest) == Skip(1 + |body|)
  {
    var s := "#" + body + rest;
    TailFrom(s);
    assert s[1..] == body + rest;
    LineEnds(body, rest);
  }

  /** `.*` stops at the first newline. */
  lemma LineEnds(body: string, rest: string)
    requires forall k :: 0 <= k < |body| ==> body[k] != '\n'
    requires |rest| == 0 || rest[0] == '\n'
    ensures Span(body + rest, NotNewline) == |body|
  {
    assert |body| < |body + rest| ==> (body + rest)[|body|] == '\n';
  }

  /** Lexing at a position inside the text acts on whatever step the
      rules find there. */
  lemma Unfolds(text: string, i: nat)
    requires i < |text|
    ensures LexFrom(text, i) == Advance(text, i, NextToken(text[i..]))
  {
  }

  /** One emitted token, then the rest of the text. */
  lemma EmitStep(text: string, i: nat, kind: Kind, value: Value, n: nat, rest: Lexed)
    requires i < |text| && NextToken(text[i..]) == Emit(kind, value, n)
    requires i + n <= |text| && rest == LexFrom(text, i + n)
    ensures LexFrom(text, i) == Lexed([Token(kind, value, i)] + rest.tokens, rest.stop)
  {
    Unfolds(text, i);
    Emits(text, i, kind, value, n);
  }

  /** An emitted token goes in front of whatever the rest of the text lexes to. */
  lemma Emits(text: string, i: nat, kind: Kind, value: Value, n: nat)
    requires i < |text| && 0 < n && i + n <= |text| && Wellformed(Token(kind, value, 0))
    ensures Advance(text, i, Emit(kind, value, n)) == Lexed([Token(kind, value, i)] + LexFrom(text, i + n).tokens, LexFrom(text, i + n).stop)
  {
  }

  /** Skipped text leaves no token: lexing goes on after it. */
  lemma SkipStep(text: string, i: nat, n: nat, rest: Lexed)
    requires i < |text| && NextToken(text[i..]) == Skip(n)
    requires i + n <= |text| && rest == LexFrom(text, i + n)
    ensures LexFrom(text, i) == rest
  {
    Unfolds(text, i);
    Skips(text, i, n);
  }

  /** A skip resumes lexing right after the skipped text. */
  lemma Skips(text: string, i: nat, n: nat)
    requires i < |text| && 0 < n && i + n <= |text|
    ensures Advance(text, i, Skip(n)) == LexFrom(text, i + n)
  {
  }

  /** A failed operator lookup or an unmatched character ends lexing at
      once, with no further token. */
  lemma StopStep(text: string, i: nat)
    requires i < |text| && (NextToken(text[i..]).BadOperator? || NextToken(text[i..]).NoMatch?)
    ensures NextToken(text[i..]).BadOperator? ==>
              LexFrom(text, i) == Lexed([], Failed(UnknownOperator(NextToken(text[i..]).lexeme)))
    ensures NextToken(text[i..]).NoMatch? ==> LexFrom(text, i) == Lexed([], Failed(TokenizeError(text[i..], i)))
  {
    assert LexStep(text, i) == Advance(text, i, NextToken(text[i..]));
    assert LexFrom(text, i) == LexStep(text, i);
  }

  /** Text made of whitespace only lexes to no token at all. */
  lemma {:induction false} BlanksLexNothing(text: string, i: nat)
    requires i <= |text| && forall k :: i <= k < |text| ==> IsSpace(text[k])
    ensures LexFrom(text, i) == Lexed([], Finished)
    decreases |text| - i
  {
    if i < |text| {
      BlankSkipped(text[i..]);
      var n := NextToken(text[i..]).len;
      BlanksLexNothing(text, i + n);
      SkipStep(text, i, n, LexFrom(text, i + n));
    }
  }

  /** `not` matches in any case and with no word boundary: `note` starts
      with a NOT token. */
  lemma NotLexed(w: string, rest: string)
    requires |w| == 3 && StartsWithFolded(w, "not")
    ensures NextToken(w + rest) == Emit(NOT, Str(w), 3)
  {
    var s := w + rest;
    assert s[..3] == w;
    TailFrom(s);
  }

  /** The five literal characters each make a token of their own. */
  lemma LiteralLexed(c: char, rest: string)
    requires IsLiteral(c)
    ensures NextToken([c] + rest) == Emit(LiteralKind(c), Str([c]), 1)
  {
    var s := [c] + rest;
    assert s[..1] == [c];
    TailFrom(s);
  }

  /** A character no rule matches: `t_error` reports the rest of the text
      from that position. */
  lemma UnmatchedLexed(text: string, i: nat)
    requires i < |text| && StartsNoTable(text[i]) && !IsSpace(text[i]) && text[i] != '#'
    requires !IsLiteral(text[i]) && Lower(text[i]) != 'n'
    ensures LexFrom(text, i) == Lexed([], Failed(TokenizeError(text[i..], i)))
  {
    Unmatched(text[i..]);
    StopStep(text, i);
  }

  lemma Unmatched(s: string)
    requires 0 < |s| && StartsNoTable(s[0]) && !IsSpace(s[0]) && s[0] != '#'
    requires !IsLiteral(s[0]) && Lower(s[0]) != 'n'
    ensures NextToken(s) == NoMatch
  {
    TailFrom(s);
    assert !StartsWithFolded(s, "not");
  }

  /** A quote with no closing partner matches neither string rule, and no
      later rule starts with a quote, so the lexer reaches `t_error`. */
  lemma UnterminatedString(s: string)
    requires 0 < |s| && IsQuote(s[0]) && s[0] !in s[1..]
    ensures NextToken(s) == NoMatch
  {
    QuoteStartsNoRule(s[0]);
    NoClosingQuote(s);
    NoOperator(s);
    NoAttribute(s);
    TailNext(s);
    FirstCharDiffers(s, "not");
  }

  lemma QuoteStartsNoRule(c: char)
    requires IsQuote(c)
    ensures Lower(c) == c && c != '-' && !IsDigit(c)
    ensures !IsSpace(c) && c != '#' && !IsLiteral(c)
  {
  }

  lemma NoClosingQuote(s: string)
    requires 0 < |s| && s[0] !in s[1..]
    ensures StringMatch(s) == 0
  {
    assert forall k :: 0 < k < |s| ==> s[k] == s[1..][k - 1];
  }

  lemma UnterminatedLexed(text: string, i: nat)
    requires i < |text| && IsQuote(text[i]) && text[i] !in text[i + 1..]
    ensures LexFrom(text, i) == Lexed([], Failed(TokenizeError(text[i..], i)))
  {
    assert text[i..][1..] == text[i + 1..];
    UnterminatedString(text[i..]);
    StopStep(text, i);
  }

  /** `t_BINARYOP` is tried before `t_ATTRIBUTE` and neither needs a word
      boundary, so `institution` lexes as IN followed by text no rule
      matches. */
  lemma InstitutionSplits(rest: string)
    ensures Lex("institution" + rest) == Lexed([Token(IN, Str("in"), 0)], Failed(TokenizeError("stitution" + rest, 2)))
  {
    var text := "institution" + rest;
    assert text[0..] == "in" + ("stitution" + rest);
    assert KeywordCased(IN, "in");
    KeywordLexed(IN, "in", "stitution" + rest);
    assert text[2..] == "stitution" + rest;
    UnmatchedLexed(text, 2);
    EmitStep(text, 0, IN, Str("in"), 2, LexFrom(text, 2));
  }
}
