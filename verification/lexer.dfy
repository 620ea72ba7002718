/** The lexer of `SearchParser`: PLY's master regular expression, compiled
    with IGNORECASE, tries the function rules in source order (`t_STRING`,
    `t_INTEGER`, `t_BINARYOP`, `t_ATTRIBUTE`) and then the string rules
    (sorted by decreasing pattern length: `t_ignore_COMMENT`, `t_NOT`,
    `t_ignore_WHITESPACE`; their first characters never overlap, so their
    order does not matter); the first alternative that matches wins, with
    no word boundaries. Only when none matches are the literals tried, and
    after them `t_error`. */
module Lexer {
  import opened Wrappers
  import opened Tokens

  // ----- character classes -------------------------------------------------

  /** Case folding as IGNORECASE applies it to ASCII letters. */
  function Lower(c: char): char {
    if 'A' <= c <= 'Z' then (c as int + 32) as char else c
  }

  /** `\d` */
  predicate IsDigit(c: char) {
    '0' <= c <= '9'
  }

  /** `\s` on the ASCII range: the characters `str.isspace()` accepts there,
      which are the space, tab, line feed, vertical tab, form feed, carriage
      return and the four separators 0x1C to 0x1F. */
  predicate IsSpace(c: char) {
    c == ' ' || 9 <= c as int <= 13 || 28 <= c as int <= 31
  }

  /** `.`, which stops at a newline. */
  predicate NotNewline(c: char) {
    c != '\n'
  }

  predicate IsQuote(c: char) {
    c == '"' || c == '\''
  }

  /** Does `s` start with the text `w`, letters compared case-insensitively? */
  predicate StartsWithFolded(s: string, w: string) {
    |w| <= |s| && forall k :: 0 <= k < |w| ==> Lower(s[k]) == Lower(w[k])
  }

  /** The length of the longest prefix of `s` whose characters satisfy `p`. */
  function Span(s: string, p: char -> bool): (n: nat)
    ensures n <= |s|
    ensures forall k :: 0 <= k < n ==> p(s[k])
    ensures n < |s| ==> !p(s[n])
  {
    if |s| == 0 || !p(s[0]) then 0 else 1 + Span(s[1..], p)
  }

  // ----- t_STRING: ("[^"]*")|('[^']*') ---------------------------------------

  /** The length of the quoted run at the start of `s`, or 0 when there is
      none: an opening quote, then everything up to the next quote of the
      same kind. */
  function StringMatch(s: string): (n: nat)
    ensures n == 0 <==> |s| == 0 || !IsQuote(s[0]) || forall k :: 0 < k < |s| ==> s[k] != s[0]
    ensures n > 0 ==> 2 <= n <= |s| && s[n - 1] == s[0]
    ensures n > 0 ==> forall k :: 0 < k < n - 1 ==> s[k] != s[0]
  {
    if |s| == 0 || !IsQuote(s[0]) then 0
    else
      var q := s[0];
      var body := Span(s[1..], c => c != q);
      if 1 + body < |s| then body + 2 else 0
  }

  // ----- t_INTEGER: -?\d+ ------------------------------------------------------

  /** An optional minus sign followed by at least one digit. */
  predicate IsIntegerLexeme(x: string) {
    var start := if 0 < |x| && x[0] == '-' then 1 else 0;
    start < |x| && forall k :: start <= k < |x| ==> IsDigit(x[k])
  }

  /** The length of the `-?\d+` match at the start of `s`, or 0. */
  function IntegerMatch(s: string): (n: nat)
    ensures n <= |s|
    ensures n > 0 ==> IsIntegerLexeme(s[..n]) && (n == |s| || !IsDigit(s[n]))
    ensures n == 0 <==> |s| == 0 || (s[0] != '-' && !IsDigit(s[0])) || (s[0] == '-' && (|s| == 1 || !IsDigit(s[1])))
  {
    if |s| == 0 then 0
    else if s[0] == '-' then
      var d := Span(s[1..], IsDigit);
      if d > 0 then d + 1 else 0
    else Span(s, IsDigit)
  }

  function DigitValue(c: char): nat
    requires IsDigit(c)
  {
    c as int - '0' as int
  }

  /** The value of a run of decimal digits. */
  function DigitsValue(ds: string): nat
    requires forall k :: 0 <= k < |ds| ==> IsDigit(ds[k])
  {
    if |ds| == 0 then 0 else DigitsValue(ds[..|ds| - 1]) * 10 + DigitValue(ds[|ds| - 1])
  }

  /** `int(t.value)` for a lexeme of `t_INTEGER`. */
  function IntValue(x: string): int
    requires IsIntegerLexeme(x)
  {
    if x[0] == '-' then -(DigitsValue(x[1..]) as int) else DigitsValue(x)
  }

  // ----- t_BINARYOP and t_ATTRIBUTE: alternations built from tables -----------

  /** The keys of `binary_operators`, in source order; each is also one
      alternative of the operator regular expression. */
  const OperatorPatterns: seq<string> := ["=", "!=", "\\>=", "\\>", "\\<=", "\\<", "in", "and", "or"]

  /** `binary_operators`: pattern text to token kind. */
  const BinaryOperators: map<string, Kind> := map[
    "=" := EQUAL, "!=" := NOTEQUAL, "\\>=" := GREATEREQUAL, "\\>" := GREATER,
    "\\<=" := LESSEQUAL, "\\<" := LESS, "in" := IN, "and" := AND, "or" := OR]

  /** `attributes`, in source order. */
  const Attributes: seq<string> := ["keyword", "lab", "institution", "doi", "experimenter", "units", "electrodes"]

  /** The text a pattern matches: each backslash escapes the next character. */
  function Unescape(p: string): (t: string)
    ensures |p| > 0 ==> |t| > 0
  {
    if |p| == 0 then ""
    else if p[0] == '\\' && |p| > 1 then [p[1]] + Unescape(p[2..])
    else [p[0]] + Unescape(p[1..])
  }

  /** `value.replace('>', r'\>').replace('<', r'\<')`. */
  function Escape(x: string): string {
    if |x| == 0 then ""
    else (if x[0] == '>' then "\\>" else if x[0] == '<' then "\\<" else [x[0]]) + Escape(x[1..])
  }

  /** The index of the first alternative of `( p0 )|( p1 )|...` that matches
      at the start of `s`, or None. */
  function Alternation(s: string, patterns: seq<string>): (r: Option<nat>)
    ensures r.Some? ==> r.value < |patterns| && StartsWithFolded(s, Unescape(patterns[r.value]))
    ensures r.Some? ==> forall j :: 0 <= j < r.value ==> !StartsWithFolded(s, Unescape(patterns[j]))
    ensures r.None? ==> forall j :: 0 <= j < |patterns| ==> !StartsWithFolded(s, Unescape(patterns[j]))
  {
    if |patterns| == 0 then None
    else if StartsWithFolded(s, Unescape(patterns[0])) then Some(0)
    else match Alternation(s, patterns[1..])
      case Some(k) => Some(k + 1)
      case None => None
  }

  /** Every alternative of both tables matches at least one character. */
  lemma PatternsNonEmpty(patterns: seq<string>, k: nat)
    requires patterns == OperatorPatterns || patterns == Attributes
    requires k < |patterns|
    ensures |Unescape(patterns[k])| > 0
  {
    assert |patterns[k]| > 0 by {
      if patterns == OperatorPatterns {
        assert k in {0, 1, 2, 3, 4, 5, 6, 7, 8};
      } else {
        assert k in {0, 1, 2, 3, 4, 5, 6};
      }
    }
  }

  /** The field path an attribute lexeme stands for: three names are renamed,
      compared exact-case; every other lexeme is kept as written. */
  function Resolve(lexeme: string): string {
    if lexeme == "doi" then "related_publications__doi"
    else if lexeme == "keyword" then "keywords__keyword"
    else if lexeme == "electrodes" then "number_of_electrodes"
    else lexeme
  }

  // ----- literals ---------------------------------------------------------------

  predicate IsLiteral(c: char) {
    c == '[' || c == ']' || c == '(' || c == ')' || c == ','
  }

  function LiteralKind(c: char): Kind
    requires IsLiteral(c)
  {
    if c == '[' then LBRACKET
    else if c == ']' then RBRACKET
    else if c == '(' then LPAREN
    else if c == ')' then RPAREN
    else COMMA
  }

  // ----- one step of the lexer --------------------------------------------------

  /** What the lexer does at the start of the remaining input: emit a token
      of `len` characters, skip `len` ignored characters, fail the operator
      table lookup, or find no rule. */
  datatype Step = Emit(kind: Kind, value: Value, len: nat) | Skip(len: nat) | BadOperator(lexeme: string) | NoMatch

  /** Token kinds the operator table can yield. */
  predicate IsOperatorKind(k: Kind) {
    k in {EQUAL, NOTEQUAL, GREATEREQUAL, GREATER, LESSEQUAL, LESS, IN, AND, OR}
  }

  /** `t_BINARYOP`: the matched lexeme is re-escaped and looked up,
      exact-case, in the operator table. */
  function OperatorStep(lexeme: string): (r: Step)
    requires |lexeme| > 0
    ensures r.Emit? || r.BadOperator?
    ensures r.Emit? <==> Escape(lexeme) in BinaryOperators
    ensures r.Emit? ==> IsOperatorKind(r.kind) && r.value == Str(lexeme) && r.len == |lexeme|
    ensures r.Emit? ==> r.kind == BinaryOperators[Escape(lexeme)]
    ensures r.BadOperator? ==> r.lexeme == lexeme
  {
    var key := Escape(lexeme);
    if key in BinaryOperators then
      var kind := BinaryOperators[key];
      assert IsOperatorKind(kind);
      Emit(kind, Str(lexeme), |lexeme|)
    else BadOperator(lexeme)
  }

  /** The rules after the two tables: comment, whitespace, `not`, the
      literals, and finally no match. */
  function TailStep(s: string): (r: Step)
    requires |s| > 0
    ensures r.Emit? || r.Skip? ==> 0 < r.len <= |s|
    ensures r.Emit? ==> r.kind != INTEGER && r.kind != STRING && r.kind != ATTRIBUTE && r.value == Str(s[..r.len])
    ensures r.BadOperator? == false
    ensures r.Skip? <==> s[0] == '#' || IsSpace(s[0])
    ensures r.Skip? && s[0] == '#' ==> (forall k :: 1 <= k < r.len ==> s[k] != '\n') && (r.len == |s| || s[r.len] == '\n')
    ensures r.Skip? && IsSpace(s[0]) ==> (forall k :: 0 <= k < r.len ==> IsSpace(s[k])) && (r.len == |s| || !IsSpace(s[r.len]))
    ensures StartsWithFolded(s, "not") ==> r == Emit(NOT, Str(s[..3]), 3)
    ensures IsLiteral(s[0]) ==> r == Emit(LiteralKind(s[0]), Str([s[0]]), 1)
    ensures r.NoMatch? <==> !IsSpace(s[0]) && s[0] != '#' && !IsLiteral(s[0]) && !StartsWithFolded(s, "not")
  {
    if s[0] == '#' then Skip(1 + Span(s[1..], NotNewline))
    else if IsSpace(s[0]) then Skip(Span(s, IsSpace))
    else if StartsWithFolded(s, "not") then Emit(NOT, Str(s[..3]), 3)
    else if IsLiteral(s[0]) then assert s[..1] == [s[0]]; Emit(LiteralKind(s[0]), Str(s[..1]), 1)
    else NoMatch
  }

  /** What the lexer does at the start of the remaining input `s`. */
  function NextToken(s: string): (r: Step)
    requires |s| > 0
    ensures r.Emit? || r.Skip? ==> 0 < r.len <= |s|
    ensures r.Emit? ==> Wellformed(Token(r.kind, r.value, 0))
    ensures r.Emit? && r.kind == STRING ==> 2 <= r.len && r.value == Str(s[1..r.len - 1]) && IsQuote(s[0]) && s[r.len - 1] == s[0]
    ensures r.Emit? && r.kind == INTEGER ==> IsIntegerLexeme(s[..r.len]) && r.value == Int(IntValue(s[..r.len]))
    ensures r.Emit? && r.kind !in {STRING, INTEGER, ATTRIBUTE} ==> r.value == Str(s[..r.len])
    ensures r.Skip? ==> s[0] == '#' || IsSpace(s[0])
    ensures r.NoMatch? ==> !IsSpace(s[0]) && s[0] != '#' && !IsLiteral(s[0]) && StringMatch(s) == 0 && IntegerMatch(s) == 0
  {
    var quoted := StringMatch(s);
    if quoted > 0 then Emit(STRING, Str(s[1..quoted - 1]), quoted)
    else
      var digits := IntegerMatch(s);
      if digits > 0 then Emit(INTEGER, Int(IntValue(s[..digits])), digits)
      else match Alternation(s, OperatorPatterns)
        case Some(k) =>
          PatternsNonEmpty(OperatorPatterns, k);
          OperatorStep(s[..|Unescape(OperatorPatterns[k])|])
        case None =>
          match Alternation(s, Attributes)
          case Some(k) =>
            PatternsNonEmpty(Attributes, k);
            var lexeme := s[..|Unescape(Attributes[k])|];
            Emit(ATTRIBUTE, Str(Resolve(lexeme)), |lexeme|)
          case None => TailStep(s)
  }

  // ----- the whole input ---------------------------------------------------------

  /** Where lexing stopped: at the end of the input, or at an error. */
  datatype Stop = Finished | Failed(error: Error)

  /** The tokens the lexer hands out one by one, and what happens when the
      parser asks for one more. */
  datatype Lexed = Lexed(tokens: seq<Token>, stop: Stop)

  predicate Increasing(ts: seq<Token>) {
    forall k, l :: 0 <= k < l < |ts| ==> ts[k].pos < ts[l].pos
  }

  /** A token placed before later ones keeps the positions increasing. */
  lemma PrependIncreasing(t: Token, ts: seq<Token>)
    requires Increasing(ts) && forall k :: 0 <= k < |ts| ==> t.pos < ts[k].pos
    ensures Increasing([t] + ts)
  {
    forall k, l | 0 <= k < l < |[t] + ts|
      ensures ([t] + ts)[k].pos < ([t] + ts)[l].pos
    {
      assert ([t] + ts)[l] == ts[l - 1];
      if k > 0 {
        assert ([t] + ts)[k] == ts[k - 1];
      }
    }
  }

  /** Lexes `text` from position `i` to the end or to the first error. */
  function LexFrom(text: string, i: nat): (r: Lexed)
    requires i <= |text|
    ensures AllWellformed(r.tokens)
    ensures Increasing(r.tokens)
    ensures forall k :: 0 <= k < |r.tokens| ==> i <= r.tokens[k].pos < |text|
    ensures r.stop.Failed? ==> r.stop.error.TokenizeError? || r.stop.error.UnknownOperator?
    ensures r.stop.Failed? && r.stop.error.TokenizeError? ==>
              i <= r.stop.error.pos < |text| && r.stop.error.rest == text[r.stop.error.pos..]
    decreases |text| - i, 2
  {
    if i == |text| then Lexed([], Finished) else LexStep(text, i)
  }

  /** Runs the rules at position `i` and acts on what they found. */
  function LexStep(text: string, i: nat): (r: Lexed)
    requires i < |text|
    ensures AllWellformed(r.tokens)
    ensures Increasing(r.tokens)
    ensures forall k :: 0 <= k < |r.tokens| ==> i <= r.tokens[k].pos < |text|
    ensures r.stop.Failed? ==> r.stop.error.TokenizeError? || r.stop.error.UnknownOperator?
    ensures r.stop.Failed? && r.stop.error.TokenizeError? ==>
              i <= r.stop.error.pos < |text| && r.stop.error.rest == text[r.stop.error.pos..]
    decreases |text| - i, 1
  {
    Advance(text, i, NextToken(text[i..]))
  }

  /** Acts on the step the rules found at position `i`: emits a token and
      goes on after it, skips ignored text, or stops at an error. */
  function Advance(text: string, i: nat, step: Step): (r: Lexed)
    requires i < |text|
    requires step.Emit? || step.Skip? ==> 0 < step.len <= |text| - i
    requires step.Emit? ==> Wellformed(Token(step.kind, step.value, 0))
    ensures AllWellformed(r.tokens)
    ensures Increasing(r.tokens)
    ensures forall k :: 0 <= k < |r.tokens| ==> i <= r.tokens[k].pos < |text|
    ensures r.stop.Failed? ==> r.stop.error.TokenizeError? || r.stop.error.UnknownOperator?
    ensures r.stop.Failed? && r.stop.error.TokenizeError? ==>
              i <= r.stop.error.pos < |text| && r.stop.error.rest == text[r.stop.error.pos..]
    decreases |text| - i, 0
  {
    match step
    case Emit(kind, value, n) =>
      var rest := LexFrom(text, i + n);
      PrependIncreasing(Token(kind, value, i), rest.tokens);
      Lexed([Token(kind, value, i)] + rest.tokens, rest.stop)
    case Skip(n) => LexFrom(text, i + n)
    case BadOperator(lexeme) => Lexed([], Failed(UnknownOperator(lexeme)))
    case NoMatch => Lexed([], Failed(TokenizeError(text[i..], i)))
  }

  /** Lexes the whole of `text`. */
  function Lex(text: string): (r: Lexed)
    ensures AllWellformed(r.tokens) && Increasing(r.tokens)
    ensures forall k :: 0 <= k < |r.tokens| ==> r.tokens[k].pos < |text|
    ensures r.stop.Failed? && r.stop.error.TokenizeError? ==>
              r.stop.error.pos < |text| && r.stop.error.rest == text[r.stop.error.pos..]
  {
    LexFrom(text, 0)
  }

  /** `tokenize`, without its printing: all tokens, or the first error. */
  function Tokenize(text: string): (r: Result<seq<Token>, Error>)
    ensures r.Success? <==> Lex(text).stop == Finished
    ensures r.Success? ==> r.value == Lex(text).tokens
    ensures r.Failure? ==> Lex(text).stop == Failed(r.error)
  {
    var lexed := Lex(text);
    match lexed.stop
    case Finished => Success(lexed.tokens)
    case Failed(e) => Failure(e)
  }
}
