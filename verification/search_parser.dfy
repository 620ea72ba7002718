/** `SearchParser.parse`: the lexer, the grammar and the grammar's actions
    run one after the other on a search string. The result is the Django
    `Q` tree the actions build, or the first error: `t_error`, the
    binary-operator table's lookup failure, or `p_error`. */
module SearchParser {
  import opened Wrappers
  import opened Tokens
  import opened Lexer
  import opened Grammar
  import opened QTree
  import opened LexerFacts
  import opened GrammarFacts

  /** Parses `text` into the `Q` tree its grammar actions build. */
  function Parse(text: string): (r: Result<Q, Error>)
    ensures r.Success? ==> Tokenize(text).Success?
    ensures r.Failure? ==> Reported(Lex(text), 0, r.error)
    ensures r.Failure? && r.error.TokenizeError? ==> r.error.pos < |text| && r.error.rest == text[r.error.pos..]
    ensures r.Failure? && r.error.SyntaxError? ==> r.error.pos < |text|
  {
    var tree :- ParseFilter(Lex(text));
    Success(Compile(tree))
  }

  /** The tree `Parse` returns holds exactly when the parsed expression
      does, reading `and`, `or` and `not` as the logical connectives. */
  lemma ParsedMeaning(text: string, e: Expr, leaf: (string, Value) -> bool)
    requires ParseFilter(Lex(text)) == Success(e)
    ensures Parse(text).Success? && Holds(Parse(text).value, leaf) == Meaning(e, leaf)
  {
    CompileMeaning(e, leaf);
  }

  /** Any text the lexer reads to the end, whose tokens lay out `e` and
      nothing else, parses to the `Q` tree compiled from `e`: the parser
      recovers the tree whatever the spacing, comments, letter case and
      token positions of the text. */
  lemma TextParses(text: string, e: Expr)
    requires Lex(text).stop == Finished
    requires Spans(Lex(text).tokens, 0, e, |Lex(text).tokens|)
    ensures Parse(text) == Success(Compile(e))
  {
    SpansFilter(Lex(text), e);
  }

  /** A lexing error after a token the grammar cannot use is never
      reached: the lexer runs only as far as the parser asks, so
      `institution = ...` fails at its first token, IN, not at the
      untokenizable `stitution`. */
  lemma InstitutionRejected(rest: string)
    ensures Parse("institution" + rest) == Failure(SyntaxError(Str("in"), 0))
  {
    InstitutionSplits(rest);
    var s := Lex("institution" + rest);
    assert ParseUnary(s, 0) == Failure(SyntaxError(Str("in"), 0));
    assert ParseAnd(s, 0) == Failure(SyntaxError(Str("in"), 0));
  }

  /** `lab!='x'` lexes to three tokens: the attribute, `!=` and the
      string with its quotes removed. */
  lemma NotEqualLexed(text: string)
    requires text == "lab!='x'"
    ensures Lex(text) == Lexed([Token(ATTRIBUTE, Str("lab"), 0), Token(NOTEQUAL, Str("!="), 3), Token(STRING, Str("x"), 5)], Finished)
  {
    var tail := NotEqualTail(text);
    NotEqualAttribute(text);
    EmitStep(text, 0, ATTRIBUTE, Str("lab"), 3, tail);
  }

  // The steps of `NotEqualLexed`, one token each. They take the text as a
  // parameter equal to the literal, so that each lexing step is unfolded
  // only where it is used, and hand the lexed rest back to the caller.

  lemma NotEqualAttribute(text: string)
    requires text == "lab!='x'"
    ensures NextToken(text[0..]) == Emit(ATTRIBUTE, Str("lab"), 3)
  {
    assert text[0..] == "lab" + "!='x'";
    assert AttributeCased(1, "lab");
    AttributeLexed(1, "lab", "!='x'");
  }

  lemma NotEqualTail(text: string) returns (tail: Lexed)
    requires text == "lab!='x'"
    ensures tail == LexFrom(text, 3)
    ensures tail == Lexed([Token(NOTEQUAL, Str("!="), 3), Token(STRING, Str("x"), 5)], Finished)
  {
    var value := NotEqualValue(text);
    NotEqualOperator(text);
    EmitStep(text, 3, NOTEQUAL, Str("!="), 2, value);
    tail := LexFrom(text, 3);
  }

  lemma NotEqualOperator(text: string)
    requires text == "lab!='x'"
    ensures NextToken(text[3..]) == Emit(NOTEQUAL, Str("!="), 2)
  {
    assert text[3..] == Spelling(NOTEQUAL) + "'x'";
    ComparisonLexed(NOTEQUAL, "'x'");
  }

  lemma NotEqualValue(text: string) returns (value: Lexed)
    requires text == "lab!='x'"
    ensures value == LexFrom(text, 5)
    ensures value == Lexed([Token(STRING, Str("x"), 5)], Finished)
  {
    assert text[5..] == ['\''] + "x" + ['\''] + "";
    StringLexed('\'', "x", "");
    EmitStep(text, 5, STRING, Str("x"), 3, LexFrom(text, 8));
    value := LexFrom(text, 5);
  }

  /** The tokens of `lab!='x'` lay out the comparison, so the text is
      one `TextParses` applies to. */
  lemma NotEqualSpans(text: string)
    requires text == "lab!='x'"
    ensures Lex(text).stop == Finished
    ensures Spans(Lex(text).tokens, 0, Compare("lab", NotEq, Str("x")), |Lex(text).tokens|)
  {
    NotEqualLexed(text);
    assert Layout(Lex(text).tokens, 0, Compare("lab", NotEq, Str("x")), 3);
  }

  /** `lab!='x'`: a case-insensitive string match, negated. */
  lemma NotEqualExample(text: string)
    requires text == "lab!='x'"
    ensures Parse(text) == Success(Leaf("lab__iexact", Str("x"), true))
  {
    NotEqualLexed(text);
    var s := Lex(text);
    var c := Compare("lab", NotEq, Str("x"));
    assert ParseRule(s, 0) == Success(Parsed(c, 3));
    assert ParseUnary(s, 0) == Success(Parsed(c, 3));
    assert ParseAnd(s, 0) == Success(Parsed(c, 3));
    assert ParseOr(s, 0) == Success(Parsed(c, 3));
    assert ParseFilter(s) == Success(c);
    assert Key("lab", NotEq, Str("x")) == "lab__iexact";
  }
}
