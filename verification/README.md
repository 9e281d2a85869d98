# sparse: tokenizer, grammar interpreter and precedence combinator

A Dafny model of the front end of the `sparse` DSL toolkit. It has three pure algorithms.

- **Tokenizer** (`Lexer`, properties in `LexerProperties`). This is the per-match loop of
  `tokenize`. The regular-expression engine is abstracted away: its work is given as the
  sequence of successful anchored matches. Each `Match` carries the name of the matching
  alternative and the position just past it. A match starts where the previous one ended,
  and the first starts at 0. The loop is a fold (`Step`/`Run`) over the state
  (line, comment mode). It is proved equal to a closed-form reference:
  - a match is in a comment when the last comment delimiter before it is `COMMENT_BEGIN`;
  - the line is 1 plus the `NEWLINE`s seen outside comments;
  - the tokens are those of the non-control matches outside comments, in match order.
- **Grammar interpreter** (`Parser`, properties in `ParserProperties`). These are
  `is_token`, `parse_rule`/`parse_name` and `parse`. A rule is a sequence of symbols.
  - Terminals are matched against the next token, by kind (prefix plus kind, which
    replaces the matches with the token's text) or by text (which keeps the matches).
  - Nonterminals try their grammar alternatives in order and commit to the first whose
    sub-rule parses (committed, PEG-style ordered choice).
  - A name missing from the grammar captures a token of that kind.
  - Recursion is bounded by fuel, one unit per sub-rule parse. Running out of fuel stands
    for the source's unbounded recursion and is not caught by a choice. Fuel matters
    only when it runs out: any other result is the same with more fuel
    (`FuelMonotoneRule` and its companions), so every result short of `OutOfFuel` is the
    one all larger fuel bounds agree on.
- **Precedence combinator** (`Precedence`). This is `precedence`/`internal`, modelled on
  trees `Leaf(v) | Node(first, op, second)`, where lower precedence numbers bind tighter.
  It preserves the in-order reading of the tree. Combining a precedence-correct right
  operand with a left operand that is a leaf, or binds tighter than the operator, gives a
  precedence-correct tree (`Shaped`). A precedence-correct tree is determined by its
  reading, so a right-recursive rule over leaf operands with the combinator as its factory
  builds exactly that tree.

## Model

| member | source | states |
|---|---|---|
| Lexer.Scan | lexer.py:56-77 | the loop over all matches ends with the line equal to 1 plus the NEWLINEs outside comments, comment mode on iff the last delimiter was COMMENT_BEGIN, and the tokens of the emitting matches in order |
| Lexer.Tokenize | lexer.py:56-80 | tokenize as written yields the reference tokens; it completes iff some match was found and the last one ends at the end of the source; otherwise it reports the character at the scan position and the current line, or the unbound position when nothing matched |
| Lexer.TokenizeFromZero | lexer.py:76-80 | with the scan position starting at 0, tokenize completes iff the matches cover the source, and otherwise reports the character at the scan position with the current line |
| Lexer.InCommentStep | lexer.py:61-66 | a COMMENT_END always leaves comment mode, a COMMENT_BEGIN always enters it (no nesting), and any other match keeps it |
| Lexer.StepAgrees | lexer.py:60-75 | one loop iteration moves the reference state before a match to the reference state after it, and yields exactly the reference token of that match |
| Lexer.RunAgrees | lexer.py:59-77 | the rest of the loop, from any point where its state matches the reference, ends in the reference state with the reference tokens |
| Lexer.EmittingBefore | lexer.py:61-75 | the indices of the matches that yield a token are exactly those outside comment mode with a non-control kind, strictly increasing |
| LexerProperties.EmittedInMatchOrder | lexer.py:61-75 | the k-th token comes from the k-th emitting match; its value is that match's text, its line is the line current there, and its name is the text for a keyword ID and the group name otherwise |
| LexerProperties.AtMostOneTokenPerMatch | lexer.py:59-75 | no more tokens than matches |
| LexerProperties.LineMonotone | lexer.py:56-68 | the line counter starts at 1 and never decreases |
| LexerProperties.LinesNondecreasing | lexer.py:68-75 | the line numbers of the yielded tokens are non-decreasing and at least 1 |
| LexerProperties.CommentSwallowsRegion | lexer.py:61-66 | from a COMMENT_BEGIN to the next COMMENT_END nothing is yielded and no line is counted, even across NEWLINEs and further COMMENT_BEGINs; comment mode is off afterwards |
| LexerProperties.InsideComment | lexer.py:61-62 | every match strictly inside a comment region is in comment mode and changes neither the output nor the line |
| LexerProperties.StrayCommentEndIgnored | lexer.py:63-64 | a COMMENT_END outside comment mode yields nothing, keeps the line and leaves comment mode off |
| LexerProperties.NewlineAdvancesLine | lexer.py:67-68 | a NEWLINE outside comment mode yields nothing and advances the line by exactly one |
| LexerProperties.EmptySourceUnbound | lexer.py:76-78 | on an empty source with no match, tokenize as written hits the unbound scan position, while starting from 0 completes with no tokens |
| LexerProperties.FirstCharUnbound | lexer.py:76-80 | when no pattern matches the first character, tokenize as written hits the unbound position, while starting from 0 reports that character on line 1 |
| LexerProperties.FromZeroAgreesWhenBound | lexer.py:76-80 | once any match was found, the corrected and the as-written tokenize agree |
| LexerProperties.IfThenElseExample | lexer.py:56-80 | "if x then y else z" with keywords if/then/else yields the keywords renamed and the identifiers as ID, all on line 1, and completes |
| Parser.HasForeignChar | parser.py:70-76 | true iff some character of the name lies outside A-Z and _ |
| Parser.IsToken | parser.py:72-77 | a symbol is a terminal iff it has a character outside A-Z and _, or starts with the token prefix |
| Parser.ParseRule | parser.py:81-111 | on success the remaining tokens are a suffix of the input; on failure the symbol reported is one of the rule's |
| Parser.ParseSymbols | parser.py:111 | folding over the symbols leaves a suffix of the tokens on success; a failure names one of the symbols |
| Parser.ParseName | parser.py:85-109 | no tokens means failure naming the symbol; a failure always names the symbol; on success a terminal consumes exactly one token and a nonterminal adds exactly one value on top of the existing ones |
| Parser.TryAlternatives | parser.py:101-109 | trying alternatives fails only as a failure naming the nonterminal; on success it leaves a suffix of the tokens and appends exactly one value |
| Parser.Parse | parser.py:113-117 | a parse error names a symbol of the rule |
| Parser.Reflex | parser.py:39-41 | called with the one value of a sub-rule, reflex returns that value unchanged |
| ParserProperties.UppercaseIsNonterminal | parser.py:70-77 | a name made only of A-Z and _ that does not start with the prefix is a nonterminal; anything starting with the prefix is a terminal |
| ParserProperties.ClassificationExamples | parser.py:72-77 | EXPR and BIN_OP are nonterminals; #ID, if and ( are terminals |
| ParserProperties.TerminalStep | parser.py:92-99 | a terminal parses iff it is the prefix plus the next token's kind (matches become that token's text) or the token's text (matches kept); either way one token is consumed, otherwise it fails on that token |
| ParserProperties.EmptyInputFails | parser.py:89-90 | against no tokens a non-empty rule fails on its first symbol and an empty rule succeeds with no values |
| ParserProperties.SymbolsAppend | parser.py:111 | parsing a + b is parsing a and then b from where a left off |
| ParserProperties.OneSymbolRule | parser.py:111 | a one-symbol rule parses as that symbol does |
| ParserProperties.CaptureDiscardsEarlierMatches | parser.py:94-95 | a kind capture at the end of a rule discards the values gathered before it |
| ParserProperties.TryReachesFirst | parser.py:102-108 | with every earlier alternative failing, choice reaches the first alternative that parses and commits to it |
| ParserProperties.TryFindsFirst | parser.py:102-108 | a successful choice committed to the first alternative that parses |
| ParserProperties.TryFailsIffAllFail | parser.py:102-109 | choice fails iff every remaining alternative fails |
| ParserProperties.ChoiceCommitsToFirst | parser.py:101-106 | a nonterminal yields the context of the first alternative, in declared order, whose sub-rule parses |
| ParserProperties.ChoiceOnlyThroughFirst | parser.py:101-106 | conversely, a nonterminal that parses used fuel and did so through the first alternative that parses |
| ParserProperties.ChoiceFailsIffAllFail | parser.py:101-109 | a nonterminal fails, with a failure naming itself, exactly when every alternative fails |
| ParserProperties.NoRetryAfterCommit | parser.py:101-111 | once a nonterminal commits, the rest of the rule continues from that alternative's result, and no other alternative is tried if it later fails |
| ParserProperties.FuelMonotoneRule | parser.py:81-111 | a rule parse that did not run out of fuel gives the same result with any larger fuel |
| ParserProperties.FuelMonotoneSymbols | parser.py:111 | the fold over a rule's symbols, when it did not run out of fuel, gives the same result with any larger fuel |
| ParserProperties.FuelMonotoneName | parser.py:85-109 | parsing a symbol, when it did not run out of fuel, gives the same result with any larger fuel |
| ParserProperties.FuelMonotoneTry | parser.py:101-109 | trying alternatives, when it did not run out of fuel, gives the same result with any larger fuel |
| ParserProperties.FuelMonotoneParse | parser.py:113-117 | a top-level parse that was not exhausted gives the same value or error with any larger fuel |
| ParserProperties.MissingRuleCapturesKind | parser.py:102-106 | a name missing from the grammar captures a token of that kind as its text, consumes a token whose text is the prefixed name as the empty text, and otherwise fails naming itself |
| ParserProperties.ReflexPassesThrough | parser.py:39-41 | a nonterminal whose one alternative uses reflex passes its sub-rule's single value through unchanged |
| ParserProperties.SingleNonterminalParse | parser.py:113-117 | parsing a one-nonterminal rule gives exactly the one value that nonterminal contributes, or its failure |
| ParserProperties.LeftoverTokensIgnored | parser.py:113-117 | parse succeeds on a capture of the first token whatever tokens follow it |
| ParserProperties.ExampleFirstAlternative | parser.py:92-97 | the rule x parses the tokens x y z, leaving y z |
| ParserProperties.ExampleCommit | parser.py:101-106 | with A ::= x or x y (values made by str), the rule A z commits A to its first alternative, gives A the empty text, and continues at y z |
| ParserProperties.ExampleCommitFails | parser.py:96-99 | after that commitment z meets y and the parse fails |
| ParserProperties.NoBacktrackingExample | parser.py:101-117 | parse of A z on x y z fails at z although x y z parses: choice does not backtrack |
| Precedence.Combine | parser.py:57-66 | the result is a node with the same in-order reading; without rotation it is the node as given; a rotation puts the looser operator at the root with its right operand kept; a precedence-correct right operand with a left operand that is a leaf or binds tighter gives a precedence-correct result |
| Precedence.ShapedLookups | parser.py:61-63 | on a precedence-correct tree the combinator looks up only operators in the table |
| Precedence.BuildRight | parser.py:43-67 | a right-recursive rule over leaf operands with the combinator as factory builds a precedence-correct tree whose reading is the operands and operators in order |
| Precedence.ShapedBounds | parser.py:61-66 | in a precedence-correct tree no operator binds looser than the root, and every operator left of the root binds strictly tighter |
| Precedence.ShapedUnique | parser.py:61-66 | two precedence-correct trees with the same reading are the same tree |
| Precedence.BuildRightIsPrecedenceParse | parser.py:43-67 | over leaf operands, the right-recursive rule builds exactly the precedence-correct tree of what it reads |
| Precedence.TighterOnRightKept | parser.py:65-66 | 1 + (2 * 3) is left unchanged |
| Precedence.LooserOnRightRotated | parser.py:61-64 | 1 * (2 + 3) becomes (1 * 2) + 3 |
| Precedence.EqualPrecedenceStaysRight | parser.py:65-66 | equal precedence is not rotated: 1 + (2 + 3) stays right-nested |

## Left out

- The regular-expression engine is not modelled: pattern compilation, the alternation join, `lastgroup` and leftmost-alternative priority. The matches are an input. They must be non-empty and lie within the source; a zero-length match would make the source loop forever.
- Generator laziness: `Outcome` carries every token yielded before the scan ended, rather than an interleaving with the consumer.
- Logging, and the text of exception messages. Only the reported character and line of the lexical error are kept. A parse failure keeps only the expected symbol and a cause (end of input, unexpected token, no alternative), not the nested chain of exceptions.
- `str.split` of rule text: rules are given already split into symbols, and so is the default sub-rule prefix + name.
- Grammar factories are arbitrary callables in the source. They are modelled as total functions from the values of a sub-rule to a value. A factory that raises, including a parse failure raised inside a factory and caught by the choice, is not modelled.
- Parser.Str: only Python's `str` called with zero or one string is modelled, which is what the default alternative can pass it. Any other arity returns the empty text.
- Parser.Reflex: with other than one value the source raises. The model instead returns a `reflex` node holding the values.
- Parser.Parse: when the rule parses but gathers no value, the source raises an index error. The model returns `NoValue`.
- Parser.ParseName: recursion is bounded by fuel. Running out of fuel (`OutOfFuel`/`Exhausted`) stands for Python's recursion limit on left-recursive grammars. Any other result does not change with more fuel. No general termination argument is attempted, and the model does not say which grammars terminate for some fuel.
- Precedence.Combine: the factory the combinator wraps is modelled as the `Node` constructor. "Has an operator" is read as "is a Node". A missing precedence-table entry (a key error) is excluded by the requirement `Lookups`, which asks exactly for the lookups the source performs.
- Precedence.BuildRight: only leaf operands are covered. An operand that is itself a node, such as a parenthesised subexpression built by the same factory, looks like any other node to the combinator's operator test. The result is then not precedence-correct in general, and `Combine` promises precedence-correctness only when the left operand is a leaf or binds tighter.
- The docstring of `is_token` (parser.py:74) says the opposite of what the code does. The model follows the code.

## Findings

| source | as written | input that shows it | evidently intended | confidence | as-written member | corrected member |
|---|---|---|---|---|---|---|
| lexer.py:76-78 | `pos` is assigned only inside the loop, so when the first match attempt fails the final check reads an unbound variable | the empty source with no pattern matching the empty string, or any source whose first character no pattern matches | the scan position starts at 0, and the failure is reported as an unexpected character on line 1, or as completion for the empty source | not executed | Lexer.Tokenize, LexerProperties.EmptySourceUnbound | Lexer.TokenizeFromZero, LexerProperties.FirstCharUnbound |
