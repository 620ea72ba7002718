# djaunty search parser, in Dafny

This project models the search-expression compiler of djaunty, `SearchParser`, and proves properties of the model. The compiler turns text such as `lab = "Doe Lab" and electrodes >= 32` into a Django `Q` lookup tree. It has three parts:

- **Lexer** (`lexer.dfy`): PLY's lexer, compiled with IGNORECASE. The function rules are tried in source order: `t_STRING`, `t_INTEGER`, `t_BINARYOP`, `t_ATTRIBUTE`. Then come the string rules, which PLY sorts by decreasing pattern length: `t_ignore_COMMENT` (`\#.*`), then `t_NOT` and `t_ignore_WHITESPACE`. Their patterns start with different characters (`#`, `n` or `N`, whitespace), so the model may try them in any order; it tries comment, whitespace, `not`. Then the literals `[ ] ( ) ,` are tried, and last `t_error`. The first alternative that matches wins. No rule needs a word boundary.
- **Grammar** (`grammar.dfy`): a recursive-descent parser with three levels, OR, AND and unary. It builds the same trees as the yacc grammar with its precedence table: OR binds loosest, then AND, then NOT, then IN, and `and`/`or` associate to the left.
- **Actions** (`qtree.dfy`): the grammar actions that turn a parse tree into `Q` leaves and nodes. `negate()` toggles a flag in place.

`precedence.dfy` adds a printer that writes only the parentheses the precedence table needs, and proves that the parser reads every tree it prints back. `search_parser.dfy` chains the three parts into `SearchParser.parse`. `seed.dfy` models `batch_create` from the seeding command as the sequence of batch sizes it produces.

**Error order.** PLY's parser asks the lexer for one token at a time. A syntax error early in the text therefore wins over a lexing error later in it.

The model keeps this order in two steps:

- `Lex` returns the tokens up to the first lexing error, plus a stop marker: `Finished` or `Failed(error)`.
- The parser looks at the stop marker only where PLY would ask for the next token.

The grammar actions cannot fail. Running them after parsing, in `Compile`, therefore gives the same result as running them during the parse.

**Errors.** The model has four error kinds:

| error | raised when |
|---|---|
| `TokenizeError(rest, pos)` | `t_error` fires: no rule matches. |
| `UnknownOperator(lexeme)` | An operator lexeme, once re-escaped, is not a key of `binary_operators`. The source then raises `KeyError`; this happens for `AND`. |
| `SyntaxError(value, pos)` | `p_error` fires on a real token. |
| `EndOfInput` | `p_error(None)` fires. The source's own error message then fails with `AttributeError`. |

The first three kinds mirror the source's exceptions. `EndOfInput` stands for the failure that replaces the source's error message. In every case the parse returns no tree.

The modules are `Wrappers` (Option/Result), `Tokens`, `Lexer`, `LexerFacts`, `Grammar`, `GrammarFacts`, `Precedence`, `QTree`, `SearchParser` and `Seed`.

## Model

| member | source | states |
|---|---|---|
| Lexer.Lex | djaunty/search_parser.py:65-74 | Lexing the whole text gives well-formed tokens: INTEGER tokens, and only those, carry a number. Their positions strictly increase and lie inside the text. A `t_error` stop reports a position inside the text and the text from that position. |
| Lexer.Tokenize | djaunty/search_parser.py:65-71 | `tokenize` yields every token exactly when the lexer reaches the end of the text; otherwise it yields the lexer's first error. |
| Lexer.LexFrom | djaunty/search_parser.py:50-51 | Lexing from position `i` emits only tokens at or after `i`, in increasing order, and stops only at the end, at a `t_error` or at a failed operator lookup. |
| Lexer.LexStep | djaunty/search_parser.py:103-106 | Lexing at a position inside the text keeps the guarantees of `LexFrom`: well-formed tokens at or after that position, in increasing order, and a `t_error` stop that reports its position and the rest of the text from there. |
| Lexer.Advance | djaunty/search_parser.py:103-106 | Acting on the step the rules found keeps the same guarantees, whatever that step is. An unmatched character stops with a `t_error` that carries the rest of the text from that position. |
| Lexer.NextToken | djaunty/search_parser.py:76-101 | At each position the rules are tried in source order, first match winning. A STRING token holds the text between matching quotes. An INTEGER token holds the value of its `-?\d+` lexeme. Operator and literal tokens hold their lexeme. Ignored text starts with `#` or whitespace. No match means no string, integer, literal or whitespace starts there. |
| Lexer.StringMatch | djaunty/search_parser.py:76-79 | A string match is an opening quote, a run with no quote of the same kind, and the closing quote. It is empty exactly when no such closing quote exists. |
| Lexer.IntegerMatch | djaunty/search_parser.py:81-84 | An integer match is an optional minus sign followed by the longest run of digits. It is empty exactly when no digit follows the optional sign. |
| Lexer.Alternation | djaunty/search_parser.py:86-101 | The alternation returns the first listed pattern that matches case-insensitively at the start of the text. No earlier pattern matches there. None means no pattern matches. |
| Lexer.OperatorStep | djaunty/search_parser.py:86-91 | `t_BINARYOP` succeeds exactly when the re-escaped lexeme is a key of `binary_operators`. It then yields that key's kind with the lexeme as value; otherwise the lookup fails. |
| Lexer.TailStep | djaunty/search_parser.py:35-51 | A comment is skipped up to the end of its line, whitespace up to the first non-whitespace character. `not` in any case yields NOT with its lexeme. A literal yields its own kind. Nothing matches exactly when none of these starts the text. No string, integer or attribute comes from here. |
| Lexer.Span | djaunty/search_parser.py:50-51 | A regular-expression repetition `c*` takes the longest prefix of characters that satisfy the class, and stops before the first one that does not. |
| Lexer.PrependIncreasing | djaunty/search_parser.py:65-71 | A token emitted before the tokens that follow it keeps the positions increasing. |
| LexerFacts.OperatorPatternsUnescaped | djaunty/search_parser.py:23-33 | The operator alternation matches exactly `=`, `!=`, `>=`, `>`, `<=`, `<`, `in`, `and`, `or`, in that order. |
| LexerFacts.AttributesUnescaped | djaunty/search_parser.py:13-21 | Each attribute pattern matches its own name. |
| LexerFacts.StringLexed | djaunty/search_parser.py:76-79 | A quoted run with no inner quote of the same kind lexes to one STRING token. Its value is the contents without the quotes, with no escape handling. |
| LexerFacts.DecimalRoundTrip | djaunty/search_parser.py:81-84 | `int()` of the decimal writing of any integer, negative ones included, gives back that integer. The model places no limit on the number of digits (see "## Left out"). |
| LexerFacts.IntegerLexed | djaunty/search_parser.py:81-84 | The decimal writing of any integer, followed by a non-digit, lexes to one INTEGER token with that integer as value. The model places no limit on the number of digits (see "## Left out"). |
| LexerFacts.ComparisonMatched | djaunty/search_parser.py:23-33 | A comparison operator selects its own alternative. `!=`, `>=` and `<=` win over `=`, `>` and `<` because they are listed first. |
| LexerFacts.ComparisonLexed | djaunty/search_parser.py:23-29 | Each comparison operator lexes to its own kind. `>` and `<` must not be followed by `=`, which would make them `>=` and `<=`. |
| LexerFacts.OperatorLexed | djaunty/search_parser.py:86-91 | When the operator alternation matches, the lexer uses `t_BINARYOP` on exactly the matched characters. The string and integer rules cannot match there, and the attribute rule comes later. |
| LexerFacts.KeywordLookup | djaunty/search_parser.py:86-91 | `in`, `and` and `or`, matched in any letter case, find a kind only when written in lower case. Any other casing fails the lookup. |
| LexerFacts.KeywordLexed | djaunty/search_parser.py:86-91 | At the lexer level, a cased keyword yields its kind when lower case, and `AND`, `Or` and the like fail the operator lookup. |
| LexerFacts.AttributeLexed | djaunty/search_parser.py:93-101 | An attribute name in any letter case lexes to one ATTRIBUTE token. Its value is the renamed field path for exact `doi`, `keyword` and `electrodes`, and the raw lexeme otherwise. `institution` is excluded because it lexes as IN. |
| LexerFacts.DoiRenamed | djaunty/search_parser.py:95-96 | `doi` becomes `related_publications__doi`. |
| LexerFacts.UpperDoiKept | djaunty/search_parser.py:93-101 | Renaming is exact-case: `DOI` passes through unchanged. |
| LexerFacts.NotLexed | djaunty/search_parser.py:48 | `not` in any case lexes to NOT even inside a longer word, since there is no word boundary. |
| LexerFacts.LiteralLexed | djaunty/search_parser.py:35 | Each of `[ ] ( ) ,` lexes to a one-character token of its own. |
| LexerFacts.BlankSkipped | djaunty/search_parser.py:50-51 | Text starting with whitespace or `#` is skipped, never emitted. |
| LexerFacts.CommentSkipped | djaunty/search_parser.py:51 | A comment is skipped up to, but not including, the end of its line. |
| LexerFacts.BlanksLexNothing | djaunty/search_parser.py:50 | Whitespace-only text lexes to no token and finishes. |
| LexerFacts.EmitStep | djaunty/search_parser.py:65-71 | An emitted token is followed by exactly the tokens lexed from after its lexeme. |
| LexerFacts.SkipStep | djaunty/search_parser.py:50-51 | Ignored text adds no token: lexing goes on right after it. |
| LexerFacts.Emits | djaunty/search_parser.py:65-71 | Acting on an emitted token puts it, at its position, in front of exactly what the text after its lexeme lexes to. |
| LexerFacts.Skips | djaunty/search_parser.py:50-51 | Acting on a skip gives exactly what the text after the skipped part lexes to. |
| LexerFacts.StopStep | djaunty/search_parser.py:86-106 | A failed operator lookup or an unmatched character ends lexing there, with no further token and the matching error. |
| LexerFacts.Unmatched | djaunty/search_parser.py:103-106 | A character that starts no rule and is not whitespace, `#`, a literal or an `n` matches no rule. The requirement is broader than the source's: it leaves out every `n` and every first letter of an operator or attribute, although texts such as `nx` or `ez` also reach `t_error`. |
| LexerFacts.UnmatchedLexed | djaunty/search_parser.py:103-106 | Such a character stops lexing with a `t_error` that carries the rest of the text and its position. As for `Unmatched`, `nx`, `ez` and other texts that reach `t_error` through a letter some rule starts with are outside its requirement. |
| LexerFacts.UnterminatedString | djaunty/search_parser.py:76-106 | A quote with no second copy of itself later in the text matches neither string pattern, and no later rule starts with a quote, so no rule matches there. |
| LexerFacts.UnterminatedLexed | djaunty/search_parser.py:76-106 | Lexing stops at such a quote with a `t_error` that carries the rest of the text and the quote's position. |
| LexerFacts.InstitutionSplits | djaunty/search_parser.py:86-101 | `institution…` lexes as IN at position 0, then fails with `t_error` at position 2 on `stitution…`. |
| Grammar.Peek | djaunty/search_parser.py:73-74 | The parser sees the next token while one remains, and the lexer's stop marker after the last one. |
| Grammar.Expect | djaunty/search_parser.py:189-192 | A punctuation token of `p_rule_in` or `p_list` is consumed exactly when it is next. Otherwise the error is the one yacc hands `p_error`: a syntax error carrying the value and position of the token at that place, or, past the last token, the end of input or the lexer's own error. |
| Grammar.ParseValue | djaunty/search_parser.py:138-145 | `value` accepts exactly a STRING or INTEGER token, or only an INTEGER after an ordering operator. Its value is the token's value. A rejected token is the one named in the syntax error, and past the last token the error is the end of input or the lexer's own error. |
| Grammar.ParseList | djaunty/search_parser.py:173-181 | `list` is non-empty, collects comma-separated values in input order, and stops at the first token that is not a comma. |
| Grammar.ParseRule | djaunty/search_parser.py:138-171 | A rule is a comparison or a membership test on the attribute token. A comparison's value is the token after the operator. An ordering comparison accepts only an INTEGER. Errors are reported at or after the attribute. |
| Grammar.ParseUnary | djaunty/search_parser.py:128-136 | An operand consumes at least one token. A failure is reported at or after where the operand starts. |
| Grammar.ParseAnd | djaunty/search_parser.py:118-121 | A conjunction consumes every `and` that follows its operands. |
| Grammar.ParseOr | djaunty/search_parser.py:123-126 | A disjunction stops only at a token that is neither `and` nor `or`, or at the end of the tokens. |
| Grammar.ParseFilter | djaunty/search_parser.py:110-112 | `filter` succeeds only when the lexer finished the text, and then one expression covers every token and the tree is one the grammar can express. Every error is a syntax error on a real token, the end of input, or the lexer's own error. |
| GrammarFacts.ValueTokensListAt | djaunty/search_parser.py:173-181 | Writing values with commas between them gives a `list` of those values in order. |
| GrammarFacts.ListParses | djaunty/search_parser.py:173-181 | `list` parses back exactly the values written, in order, and stops after the last one. |
| GrammarFacts.MemberParts | djaunty/search_parser.py:166-171 | `ATTRIBUTE in [ list ]` parses to a membership test on that attribute with the listed values. |
| GrammarFacts.GroupStep | djaunty/search_parser.py:134-136 | A parenthesised expression parses to the inner tree unchanged. |
| GrammarFacts.NegationParts | djaunty/search_parser.py:128-132 | `not` followed by an operand parses to the negation of that operand. |
| GrammarFacts.SpansParses | djaunty/search_parser.py:110-136 | Tokens laid out as an expression, with every binary node parenthesised, parse back to that expression. |
| GrammarFacts.PrintSpans | djaunty/search_parser.py:110-136 | Printing an expression lays out its tokens as that expression. |
| GrammarFacts.PrintWellformed | djaunty/search_parser.py:76-101 | Printed tokens are well-formed: only INTEGER tokens carry numbers. |
| GrammarFacts.RoundTrip | djaunty/search_parser.py:110-187 | Every expression the grammar can express, printed as tokens with every `and`/`or` node in parentheses, parses back to itself. `Precedence.RoundTripMin` drops the parentheses the precedence table makes unnecessary. |
| GrammarFacts.AndOfTwo | djaunty/search_parser.py:118-121 | `a and b`, with nothing after it binding tighter, parses to the conjunction of `a` and `b`. |
| GrammarFacts.AndBindsTighterRight | djaunty/search_parser.py:54-56 | `a or b and c` parses to `a or (b and c)`. |
| GrammarFacts.AndBindsTighterLeft | djaunty/search_parser.py:54-56 | `a and b or c` parses to `(a and b) or c`. |
| GrammarFacts.AndAssociatesLeft | djaunty/search_parser.py:56 | `a and b and c` parses to `(a and b) and c`. |
| GrammarFacts.OrAssociatesLeft | djaunty/search_parser.py:55 | `a or b or c` parses to `(a or b) or c`. |
| GrammarFacts.NotBindsTighter | djaunty/search_parser.py:54-57 | `not a and b` parses to `(not a) and b`. |
| GrammarFacts.DanglingConnective | djaunty/search_parser.py:189-192 | An expression followed only by `and` or `or` fails at the end of input, where `p_error` receives None. |
| GrammarFacts.TrailingToken | djaunty/search_parser.py:189-192 | A complete expression followed by a token other than `and`/`or` fails with a syntax error on that token's value and position. No partial tree is returned. |
| Precedence.RoundTripMin | djaunty/search_parser.py:54-136 | Every expression the grammar can express, printed with only the parentheses the precedence table needs, parses back to itself: `or` binds loosest and groups to the left, `and` binds tighter and groups to the left, `not` binds tighter still. |
| Precedence.ParsedReprints | djaunty/search_parser.py:110-136 | Every tree `filter` returns prints, fully parenthesised or minimally, to well-formed tokens that parse back to that same tree. |
| Precedence.MixedChain | djaunty/search_parser.py:54-56 | `a or b and c or d` over four comparisons is written with no parentheses at all and parses to `(a or (b and c)) or d`. |
| Precedence.PrintedDisj | djaunty/search_parser.py:54-58 | The minimal printer lays a tree out as a left-grouped `or` chain of left-grouped `and` chains of operands, where an operand is a rule, `not` before an operand, or a parenthesised `and`/`or`. |
| Precedence.MinWellformed | djaunty/search_parser.py:76-101 | The minimally printed tokens are well-formed: only INTEGER tokens carry numbers. |
| Precedence.OperandParses | djaunty/search_parser.py:128-136 | Tokens laid out as one operand parse back as that operand and end exactly after it. |
| Precedence.ConjParses | djaunty/search_parser.py:118-121 | Tokens laid out as an `and` chain parse as that chain grouped to the left, and the conjunction goes on right after them. |
| Precedence.DisjParses | djaunty/search_parser.py:123-126 | Tokens laid out as an `or` chain of `and` chains, followed by anything but `and`, parse as that chain grouped to the left, and the disjunction goes on right after them. |
| QTree.Negate | djaunty/search_parser.py:128-132 | `negate()` flips the flag and changes nothing else. |
| QTree.LookupFor | djaunty/search_parser.py:149-158 | `=`/`!=` with a string select `__iexact` and with an integer no suffix. `<`, `<=`, `>`, `>=` select `__lt`, `__lte`, `__gt`, `__gte`. `__in` is never chosen here. |
| QTree.Compile | djaunty/search_parser.py:114-171 | Rules become leaves. `and` and `or` become un-negated nodes with the matching connector. |
| QTree.KeyRoundTrip | djaunty/search_parser.py:146-160 | The key a comparison builds reads back as the field path and the lookup that its operator and value select. |
| QTree.NegateTwice | djaunty/search_parser.py:131 | Toggling twice restores the tree. |
| QTree.NegateFlips | djaunty/search_parser.py:131 | The toggled flag is logical negation of what the tree holds. |
| QTree.NotEqualIsNegatedEqual | djaunty/search_parser.py:149-164 | `!=` builds the leaf `=` builds, with the flag set. |
| QTree.DoubleNegationVanishes | djaunty/search_parser.py:128-132 | `not not e` builds exactly the tree of `e`. |
| QTree.NegatedNotEqualIsEqual | djaunty/search_parser.py:128-164 | `not (x != v)` builds the plain, un-negated equality leaf. |
| QTree.MembershipIgnoresList | djaunty/search_parser.py:166-171 | The `in` leaf has key `attr__in` and value `'['`, the bracket token. It is the same whatever values are listed. |
| QTree.CompileMeaning | djaunty/search_parser.py:118-164 | The compiled tree holds exactly when the expression does, reading `!=` and `not` as negation and `and`/`or` as the connectives. |
| SearchParser.Parse | djaunty/search_parser.py:73-74 | `parse` succeeds only when the whole text is tokenized. Every error is one the text or its tokens account for, and an error's position lies inside the text. |
| SearchParser.ParsedMeaning | djaunty/search_parser.py:73-164 | A parsed text yields a tree that holds exactly when the parsed expression does. |
| SearchParser.TextParses | djaunty/search_parser.py:73-187 | Any text the lexer reads to the end, whose tokens lay out an expression fully parenthesised (every `and`/`or` node in parentheses) and nothing else, parses to that expression's compiled tree, whatever its spacing, comments, letter case and token positions. |
| SearchParser.InstitutionRejected | djaunty/search_parser.py:86-101 | `institution …` fails with a syntax error on the IN token at position 0. The lexer never reaches the untokenizable rest. |
| SearchParser.NotEqualLexed | djaunty/search_parser.py:76-101 | `lab!='x'` lexes to an attribute, `!=` and the string `x`. |
| SearchParser.NotEqualAttribute | djaunty/search_parser.py:93-101 | At the start of `lab!='x'` the attribute rule takes the three letters `lab` and keeps them unrenamed. |
| SearchParser.NotEqualOperator | djaunty/search_parser.py:86-91 | After `lab` the operator rule takes `!=` as one NOTEQUAL token. |
| SearchParser.NotEqualValue | djaunty/search_parser.py:76-79 | From offset 5 the text `'x'` lexes to the single STRING token `x` at position 5, quotes dropped, and lexing finishes. |
| SearchParser.NotEqualTail | djaunty/search_parser.py:76-91 | From offset 3 the text lexes to the NOTEQUAL token and then the STRING token, and lexing finishes. |
| SearchParser.NotEqualSpans | djaunty/search_parser.py:138-164 | The tokens of `lab!='x'` lay out the comparison `lab != "x"`, so `TextParses` applies to that text. |
| SearchParser.NotEqualExample | djaunty/search_parser.py:138-164 | `lab!='x'` parses to the negated leaf `lab__iexact = "x"`. |
| Seed.FloorDiv | djaunty/management/commands/seed.py:12 | Python's `//` rounds towards negative infinity. |
| Seed.FloorMod | djaunty/management/commands/seed.py:19 | Python's `%` takes the sign of the divisor and completes `//`. |
| Seed.BatchSizes | djaunty/management/commands/seed.py:11-23 | `batch_create` fails exactly when the batch size is zero. |
| Seed.BatchLayout | djaunty/management/commands/seed.py:12-23 | There are `count // batch` full batches, then one batch of `count % batch` rows exactly when that is not zero. |
| Seed.SumIsCount | djaunty/management/commands/seed.py:13-23 | The batch sizes add up to `count`, the progress bar's total. |
| Seed.BatchShape | djaunty/management/commands/seed.py:14-23 | Full batches come first. No batch is empty or larger than the batch size. |
| Seed.NegativeCount | djaunty/management/commands/seed.py:12-23 | A negative count still yields one batch of `count % batch` rows when the division leaves a remainder. |

## Left out

- Case folding and the `\s` and `\d` classes cover ASCII only. On ASCII, `\s` is the space, tab, line feed, vertical tab, form feed, carriage return and the separators 0x1C to 0x1F, as in Python. Python's IGNORECASE and Unicode classes also fold and classify non-ASCII characters, such as U+0085 and U+00A0 as whitespace and other scripts' digits as `\d`; the model does not.
- Django's `Q` combination flattens children that share a connector. `Q.__and__`, `Q.__or__` and `negate` live in a library that is not part of this model. `&` and `|` are modelled as building a binary node; `negate` is modelled as a flag toggle.
- PLY's table construction (LALR table generation, `lex.lex`, `yacc.yacc`) is not modelled. The grammar is modelled directly as a parser.
- `lineno` is not modelled. It is never advanced, because the lexer has no newline rule, so every error message reports line 1.
- The text of each exception message is not modelled. The error values carry the parts the messages print: value, rest of text and position.
- `tokenize` prints its tokens. The printing is I/O; `Lexer.Tokenize` returns the tokens instead.
- `SearchParser.Parse` takes the text only. The lexer and parser objects that `__init__` builds are stateless between calls, apart from PLY's internal lexer state, which each parse restarts.
- `FacetParser` is not defined in any of the modelled files.
- `batch_create` is modelled as its batch sizes only. The factory, `bulk_create`, the database and the `tqdm` progress bar are left out; each batch size stands for one factory call, one insert and one progress update.
- The rest of the repository is not modelled: the API views, forms, filters, models, serializers, URL routing, templates, the fake-data factories and the JavaScript front end.
- Lexer.LexStep: its contract gives only the guarantees it shares with `LexFrom`. It does not say what each kind of step yields. `LexerFacts.EmitStep`, `LexerFacts.SkipStep` and `LexerFacts.StopStep` state that, one step kind each.
- Lexer.Advance: the same holds for it. `LexerFacts.Emits` and `LexerFacts.Skips` state what an emit and a skip yield.
- Lexer.NextToken: its contract does not fix which rule produced an ATTRIBUTE or operator token. The lemmas in `LexerFacts` state this rule by rule.
- SearchParser.Parse: its contract does not say which tree a successful parse returns. `ParsedMeaning`, `TextParses`, the precedence lemmas in `GrammarFacts` and the `Precedence` module state that.
- Grammar.ParseFilter: its contract does not fix which token a syntax error names. It says only that the error names some real token, is the end of input, or is the lexer's error; it does not say that it is the first token at which no rule can go on.
- LexerFacts.DecimalRoundTrip: Python's `int()` on a decimal string is modelled without a digit limit. CPython 3.11 and later, and the security releases 3.7.14, 3.8.14, 3.9.14 and 3.10.7, raise `ValueError` for strings of more than 4300 digits by default; whether the source fails there depends on the interpreter it runs on.
- LexerFacts.IntegerLexed: for the same reason, an INTEGER lexeme of more than 4300 digits lexes to its value here, where those interpreters raise `ValueError` inside `t_INTEGER`.
