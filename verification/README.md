# toki front end, modelled in Dafny

toki is a small indentation-sensitive language written in Rust. Its front end
has three stages:

- a pull lexer (`src/lexer.rs`). It turns source text into spanned tokens and
  turns runs of four leading spaces into `Indent`/`Dedent` tokens;
- a recursive-descent, precedence-climbing parser (`src/parser.rs`). It builds
  blocks, statements, conditionals, definitions, calls and binary expressions,
  or stops with a `ParseErr`;
- a reporter (`src/reporter.rs`). It renders a parse error as a message that
  names the position, then the offending line with the span in red, then a
  line of carets under it.

The repository also holds two earlier scanners, and both are modelled:

- the array-indexed `Tokenizer` of `src/tokenizer.rs`;
- the `Tokenizer` class of the pipe-expression prototype
  `experimental/pipe.py`.

Token display spellings come from `src/token.rs`.

Each stage that works by changing state takes the same shape in the model:

- a reference function says what one call does (`Lexing.NextSpec`, the
  member functions of `ParseSpec.Input`, `CharTokenizer.Scan`,
  `PipeTokenizer.Step`);
- a class keeps the fields the source updates in place (`Lexing.Lexer`,
  `Parsing.Parser`, `CharTokenizer.Tokenizer`, `PipeTokenizer.Tokenizer`);
- each method of the class is proved to agree with its reference function;
- lemmas state what the reference functions promise.

The reporter is pure code, so it is modelled as functions.

Files:

| file | module | models |
|---|---|---|
| util.dfy | Util | `Option`, `Result`, counting and decimal helpers |
| tokens.dfy | Tokens | `src/token.rs`: tokens, operators, precedence, `Display` |
| ast.dfy | Ast | the syntax tree the parser builds |
| lexing.dfy | Lexing | `src/lexer.rs`: one call of `next`, and the `Lexer` class |
| lexing_props.dfy | LexingProps | what one step reads and how it spells its token |
| lex_stream.dfy | LexStream | the iterator as a stream: positions, indentation, operators, keywords |
| parse_spec.dfy | ParseSpec | `src/parser.rs` as functions over a cursor |
| parser.dfy | Parsing | `src/parser.rs` as a class moving one cursor |
| parse_props.dfy | ParseProps | blocks, statements, conditionals, annotations |
| expr_props.dfy | ExprProps | postfix operations, operator precedence and grouping, the parser's tests |
| reporter.dfy | Reporter | `src/reporter.rs` |
| char_tokenizer.dfy | CharTokenizer | `src/tokenizer.rs` |
| pipe_tokenizer.dfy | PipeTokenizer | the `Tokenizer` of `experimental/pipe.py` |

Characters are ASCII throughout, so one character is one byte and byte
offsets equal indices.

Three behaviours of the code, stated as it has them:

- A line indented less than the current level, but not at the left margin,
  gives exactly one `Dedent`. The newline flag is then cleared, so no further
  `Dedent` follows. (`LexStream.PartialDedent`)
- The newline flag starts false, so the first line of input is never checked
  for indentation.
- The line number in a report counts the line breaks before the error, so the
  first line is line 0.

## Model

| member | source | states |
|---|---|---|
| Tokens.PrecedenceOrder | src/parser.rs:9-15 | Precedence is strictly ordered `Lowest < AddSub < MulDiv < Equality`. The order is irreflexive and total, and nothing is below `Lowest`. |
| Tokens.Display | src/token.rs:32-67 | Every token with a fixed spelling is spelled by one to six characters; SpellingRoundTrip and DisplayInjective state that the spellings tell these tokens apart. |
| Tokens.SpellingRoundTrip | src/token.rs:32-67 | Reading the spelling of a fixed-spelling token back with `FromSpelling` gives that token. |
| Tokens.DisplayInjective | src/token.rs:32-67 | Two fixed-spelling tokens with the same spelling are the same token, so the spelling an `ExpectedToken` error carries names one token. |
| Lexing.Start | src/lexer.rs:56-64 | A new lexer is at offset 0, with the newline flag clear and indent level 0. |
| Lexing.RunLength | src/lexer.rs:125 | Gives the length of the longest prefix in a character class: every character before it is in the class, and the character at it is not. |
| Lexing.FindChar | src/lexer.rs:184 | Gives the first index of a character, or none when the character does not occur. |
| Lexing.ParseI32 | src/lexer.rs:167 | Parsing a digit run succeeds exactly when the run is non-empty, all digits and at most `i32::MAX`. The result is the run's decimal value. |
| Lexing.GetKeyword | src/lexer.rs:226-239 | A word the table knows gives a keyword token; KeywordTable states that it does so exactly for the nine keyword spellings. |
| Lexing.NextSpec | src/lexer.rs:70-100 | One call of `next` keeps the source and never moves back. `End` leaves nothing unread. The indent level moves by exactly +1 on `Indent`, -1 on `Dedent`, and otherwise not at all. Every emitted token consumes input, except the forced `Dedent`. |
| Lexing.Scan | src/lexer.rs:89-99 | From a character that starts something, the step consumes input whenever it emits, and the level rule holds. |
| Lexing.LeadingSpaces | src/lexer.rs:124-135 | A run of spaces right after a newline: same position and level rule as `next`. |
| Lexing.Layout | src/lexer.rs:136-155 | A leading-space width that differs from the level aborts iff it is not a multiple of four. It is a `Dedent` iff it is shallower, an `Indent` iff it is exactly one level deeper, and otherwise an abort. A layout token sits at the run's start and covers four spaces. |
| Lexing.Started | src/lexer.rs:101-121 | Any non-space character keeps the level, clears the newline flag, never ends the stream, and never yields a layout or `Newline` token. |
| Lexing.Minus | src/lexer.rs:206-219 | `-` yields exactly one of `Sub`, `SubEq` or `Arrow`, at the `-`. |
| Lexing.StringLit | src/lexer.rs:183-195 | A quote yields a string literal, or `UnterminatedString` at the quote. |
| Lexing.Numeric | src/lexer.rs:156-169 | A digit yields an integer literal, or aborts when the run does not parse as `i32`. |
| Lexing.IdentLit | src/lexer.rs:170-182 | A letter yields an identifier or one of the keyword tokens. |
| Lexing.WordToken | src/lexer.rs:181 | A word becomes an identifier or a keyword token, nothing else. |
| Lexing.IfEqualElse | src/lexer.rs:196-205 | Yields the `=` form, consuming the `=`, exactly when the next character is `=`. Otherwise yields the plain token and consumes nothing more. |
| Lexing.Lexer.constructor | src/lexer.rs:56-64 | The fields equal `Start(src)`. |
| Lexing.Lexer.Next | src/lexer.rs:70-223 | The returned step and the new fields are exactly `NextSpec` of the old fields. |
| Lexing.Lexer.SkipSpaces | src/lexer.rs:82-87 | Skipping mid-line spaces does not change what `next` returns. It stops at the end or at a character that starts something. |
| Lexing.Lexer.LexScan | src/lexer.rs:89-121 | One pass agrees with `Scan`. When the loop goes round again, input was consumed and `next` from the new state equals `Scan` of the old one. |
| Lexing.Lexer.LexLeadingSpaces | src/lexer.rs:124-135 | Agrees with `LeadingSpaces`. The `continue` case leaves the state untouched. |
| Lexing.Lexer.LexLayout | src/lexer.rs:136-155 | The step and new fields equal `Layout`. |
| Lexing.Lexer.Dispatch | src/lexer.rs:101-121 | The step and new fields equal `Started`. |
| Lexing.Lexer.LexMinus | src/lexer.rs:206-219 | The step and new fields equal `Minus`. |
| Lexing.Lexer.LexIfEqualElse | src/lexer.rs:196-205 | The step and new fields equal `IfEqualElse`. |
| Lexing.Lexer.LexString | src/lexer.rs:183-195 | The step and new fields equal `StringLit`. |
| Lexing.Lexer.LexNumeric | src/lexer.rs:156-169 | The step and new fields equal `Numeric`. |
| Lexing.Lexer.LexIdent | src/lexer.rs:170-182 | The step and new fields equal `IdentLit`. |
| LexingProps.KeywordDisplay | src/lexer.rs:226-239 | Every keyword `get_keyword` returns is a keyword token whose display spelling is the word. |
| LexingProps.NextAccounts | src/lexer.rs:70-223 | Each call of `next` accounts for what it read: only spaces are skipped. A token sits at a position and is spelled by exactly the text it covers, and a word or number ends at a character that cannot continue it. An error points at an unknown character or at an unclosed quote. `End` follows only spaces. The newline flag is set iff a `Newline` is emitted, or by a forced `Dedent` that keeps it. |
| LexingProps.ScanAccounts | src/lexer.rs:89-121 | The same accounting for the step from a character that starts something. |
| LexingProps.LeadingSpacesAccounts | src/lexer.rs:124-155 | The same accounting for a run of leading spaces. |
| LexingProps.SameLevelAccounts | src/lexer.rs:133-135 | A run as wide as the level is skipped, and the accounting still holds. |
| LexingProps.LayoutStepAccounts | src/lexer.rs:136-155 | The accounting holds for the `Indent`/`Dedent`/abort step of a run. |
| LexingProps.LayoutAccounts | src/lexer.rs:137-153 | A layout token covers four spaces of the source. |
| LexingProps.StartedAccounts | src/lexer.rs:101-221 | The accounting holds for every arm of the dispatch. |
| LexingProps.PunctuationAccounts | src/lexer.rs:102-106 | The accounting holds for `( ) : ; ,`. |
| LexingProps.UnknownAccounts | src/lexer.rs:120 | Any character that starts nothing is an `UnknownToken` at that character, with no end. |
| LexingProps.OperatorAccounts | src/lexer.rs:109-113 | The accounting holds for `+ * / ! =` and their `=` forms. |
| LexingProps.OperatorRead | src/lexer.rs:196-205 | The lookahead step reads one or two characters and spells its token by them. |
| LexingProps.OperatorSpelling | src/token.rs:46-59 | Each operator pair is spelled `c` and `c=`. Neither is a word or number token. |
| LexingProps.MinusAccounts | src/lexer.rs:206-219 | `-`, `-=` and `->` are spelled by the text they cover. |
| LexingProps.StringAccounts | src/lexer.rs:183-195 | A string literal covers the two quotes and holds no quote. An unclosed quote is reported at the quote, with no quote after it. |
| LexingProps.StringRead | src/lexer.rs:183-195 | The same accounting, for the string reader itself. |
| LexingProps.NumericAccounts | src/lexer.rs:156-169 | An integer literal is spelled by its digit run, and the run ends at a character that cannot continue it. |
| LexingProps.NumericRead | src/lexer.rs:156-169 | The same accounting, for the number reader itself. |
| LexingProps.IntSpells | src/lexer.rs:167 | A run that parses is spelled by its value. |
| LexingProps.IdentAccounts | src/lexer.rs:170-182 | A word token is spelled by its maximal run of letters, digits and `_`. |
| LexingProps.IdentRead | src/lexer.rs:170-182 | The same accounting, for the word reader itself. |
| LexingProps.IdentifierRun | src/lexer.rs:171-175 | The run read at a letter is an identifier. |
| LexingProps.WordSpells | src/lexer.rs:181 | Any identifier-shaped word is spelled by itself, as a keyword or as an `Ident` that is no keyword. |
| LexingProps.StartedSpaces | src/lexer.rs:115 | A space dispatches to the leading-spaces arm. |
| LexingProps.StartedIdent | src/lexer.rs:118 | A letter dispatches to the word reader. |
| LexingProps.StartedString | src/lexer.rs:116 | A quote dispatches to the string reader. |
| LexingProps.StartedNumeric | src/lexer.rs:117 | A digit dispatches to the number reader. |
| LexingProps.StartedMinus | src/lexer.rs:108 | `-` dispatches to its own arm. |
| LexingProps.StartedOperator | src/lexer.rs:109-113 | `+ * / ! =` dispatch to the one-character lookahead with their token pair. |
| LexingProps.StartedPunctuation | src/lexer.rs:102-106 | A punctuation character is a fixed-spelling token spelled by that character, and nothing more is consumed. |
| LexStream.Run | src/lexer.rs:67-70 | Pulling items until the end, an error or an abort keeps the source. |
| LexStream.RunInOrder | src/lexer.rs:70-223 | All token positions of a run lie inside the unread source and never decrease. |
| LexStream.IndentBalance | src/lexer.rs:76-155 | Over a run, the number of `Indent` minus `Dedent` tokens equals the change in indent level. |
| LexStream.SkipSpaces | src/lexer.rs:82-87 | Mid-line spaces before a token do not change what `next` returns. |
| LexStream.IndentNotMultipleOfFourAborts | src/lexer.rs:129 | A line starting with a width that is not a multiple of four aborts. |
| LexStream.IndentOpensBlock | src/lexer.rs:144-153 | A line one level deeper gives `Indent` at the line start. It consumes four spaces and raises the level. |
| LexStream.IndentJumpAborts | src/lexer.rs:145 | A line more than one level deeper aborts. |
| LexStream.ShallowerLineDedents | src/lexer.rs:137-143 | A shallower indented line gives `Dedent` at the line start. It consumes four spaces and lowers the level. |
| LexStream.SameIndentSkipped | src/lexer.rs:133-135 | A line at the current level gives no layout token: `next` goes on after the whole run. |
| LexStream.LineStartUnfolds | src/lexer.rs:124-155 | At a line start with spaces, the same width continues the loop, and any other width is the `Layout` step. |
| LexStream.PartialDedent | src/lexer.rs:137-143 | A line shallower than the level but not at the margin gives exactly one `Dedent`. The next step is no `Dedent`, and the level ends one lower. |
| LexStream.SpacesThenNoDedent | src/lexer.rs:76-87 | Mid-line, spaces and then a non-space never give a `Dedent` and keep the level. |
| LexStream.NoDedentMidLine | src/lexer.rs:76-80 | Mid-line, no `Dedent` is forced, and the level stays. |
| LexStream.DedentsBeforeLine | src/lexer.rs:76-80 | A line at the left margin after indented blocks yields one `Dedent` per open level at the line's first character, followed by the line's own items. |
| LexStream.EndLeavesBlocksOpen | src/lexer.rs:73-74 | At the end of input the stream stops: no closing `Dedent` is produced. |
| LexStream.TwoCharOperators | src/lexer.rs:196-219 | An operator character followed by `=` is always read as the two-character operator and consumes both. |
| LexStream.OperatorWithEquals | src/lexer.rs:196-219 | The same, stated at the dispatch. |
| LexStream.KeywordTable | src/lexer.rs:226-239 | `get_keyword(w)` is `t` iff `t` is one of the nine keyword tokens and `w` is its display spelling. |
| LexStream.WordStep | src/lexer.rs:170-182 | A word followed by a non-word character is read whole, as its keyword or an identifier. |
| LexStream.NewlineStep | src/lexer.rs:94-96 | A newline is a `Newline` token that sets the newline flag. |
| LexStream.PunctuationStep | src/lexer.rs:102-106 | A punctuation character is a token spelled by it, with the flag cleared. |
| LexStream.UnterminatedStep | src/lexer.rs:192-194 | A quote with no closing quote is `UnterminatedString` at the quote. |
| LexStream.LeadingSpacesCases | src/lexer.rs:131-135 | The leading-space arm is the `continue` when the width equals the level, and `Layout` otherwise. |
| ParseSpec.ParseContext.EnteringParens | src/parser.rs:49-52 | Sets the inside-parentheses flag and keeps the annotation flag. |
| ParseSpec.ParseContext.ExitingParens | src/parser.rs:53-56 | Clears the inside-parentheses flag and keeps the annotation flag. |
| ParseSpec.ParseContext.WithAnnotationParsing | src/parser.rs:57-60 | Allows annotations and keeps the parentheses flag. |
| ParseSpec.ParseContext.WithoutAnnotationParsing | src/parser.rs:61-64 | Forbids annotations and keeps the parentheses flag. |
| ParseSpec.NewContext | src/parser.rs:43-48 | A new context allows annotations and is outside parentheses. |
| ParseSpec.ExprHasSemi | src/parser.rs:344-358 | A block's answer is its own `has_semi`, and only a block or a conditional can answer other than whether `;` follows; ClosedIgnoresNext states that for those the `;` does not matter. |
| ParseSpec.Input.GetNextToken | src/parser.rs:71-80 | Succeeds iff a token is next, and then returns it and moves one on. The end is `UnexpectedEnd`. A lex error is `LexErr` of that error. |
| ParseSpec.Input.Eat | src/parser.rs:604-613 | Succeeds iff the expected token is next, moving one on. A different token is `ExpectedToken` at it, with its length and the expected token's display spelling. |
| ParseSpec.Input.ParseTypeDecl | src/parser.rs:314-342 | On success at least one item is consumed. |
| ParseSpec.Input.ParseAnnotation | src/parser.rs:594-602 | On success the `:` and at least one more item are consumed. |
| ParseSpec.Input.FnArgs | src/parser.rs:194-218 | On success at least the closing `)` is consumed. |
| ParseSpec.Input.FnArg | src/parser.rs:201-214 | A parameter is a typed identifier named by the token at the cursor. |
| ParseSpec.Input.StructFields | src/parser.rs:256-268 | On success the cursor stays inside the stream and never moves back. |
| ParseSpec.Input.StructField | src/parser.rs:261-266 | A field is a typed identifier named by the token at the cursor. |
| ParseSpec.Input.SkipNewlines | src/parser.rs:247-255 | Skips exactly the run of `Newline` tokens: all skipped items are newlines, and the next item is not one. |
| ParseSpec.Input.ParseAttrAccess | src/parser.rs:523-536 | Consumes the dot and one token, and wraps the left-hand side. |
| ParseSpec.Input.OpenArgs | src/parser.rs:542-554 | The call is vertical iff a newline follows `(`. |
| ParseSpec.Input.CloseArgs | src/parser.rs:581-584 | On success at least the `)` is consumed. |
| ParseSpec.Input.ParseBlock | src/parser.rs:91-138 | A parsed block carries the indent it was asked for. |
| ParseSpec.Input.BlockLoop | src/parser.rs:98-130 | The loop keeps the requested indent. |
| ParseSpec.Input.BlockItem | src/parser.rs:99-129 | The loop skips iff the item is a `Newline` and closes iff it is a `Dedent`. It reads a statement iff the item is another token and no tail expression came before. A lex error panics. An `Indent` is `UnexpectedIndent` with expected level 0. Any other token after a tail expression is `UnexpectedStmt` at it. |
| ParseSpec.Input.ParseStmt | src/parser.rs:139-192 | A statement consumes at least one item. |
| ParseSpec.Input.ExprStmt | src/parser.rs:169-192 | A statement that starts with an expression is an assignment or an expression statement. |
| ParseSpec.Input.AssignmentRest | src/parser.rs:171-181 | An assignment keeps its target, and its last consumed token is the `;` it demands. |
| ParseSpec.Input.ExprStmtRest | src/parser.rs:183-191 | The rest of an expression statement is an `Expr` statement; ParseProps.ExprStmtSemi states its `has_semi` rule and the `;` it consumes. |
| ParseSpec.Input.ParseStructDef | src/parser.rs:220-245 | A struct definition is a `StructDef` statement. |
| ParseSpec.Input.StructMethods | src/parser.rs:270-279 | On success the cursor stays inside the stream and never moves back. |
| ParseSpec.Input.ParseFnDef | src/parser.rs:281-312 | A function definition consumes at least one item. |
| ParseSpec.Input.NestedBlock | src/parser.rs:300-304 | A nested block comes after a newline and an indent, and is one level deeper. |
| ParseSpec.Input.ParsePrimary | src/parser.rs:360-394 | A primary expression consumes at least one item. |
| ParseSpec.Input.ParseConditional | src/parser.rs:396-442 | A conditional consumes at least one item; ParseProps.ConditionalShape states how the condition is parsed and the `ExpectedColon` after it. |
| ParseSpec.Input.ConditionalBody | src/parser.rs:411-441 | Keeps the condition, and the if-block is one level deeper. |
| ParseSpec.Input.ElseBlock | src/parser.rs:417-435 | On success the cursor stays inside the stream and never moves back. |
| ParseSpec.Input.ElseBranch | src/parser.rs:421-430 | After `else`, an else-expression is always produced. |
| ParseSpec.Input.ParseExpr | src/parser.rs:444-455 | An expression consumes at least one item; ExprProps.ChainGroupsRight and ExprProps.TighterBindsFirst state how it groups operators. |
| ParseSpec.Input.ParseExprWith | src/parser.rs:457-501 | On success the cursor never moves back; ExprProps.ParseExprWithExtends states which operators it applies and where. |
| ParseSpec.Input.ExprLoop | src/parser.rs:469-498 | On success the cursor never moves back; ExprProps.ExprLoopExtends, LoopApplies and LoopHalts state what each round does. |
| ParseSpec.Input.NextAction | src/parser.rs:470-491 | The loop applies an operator iff the next token is neither `;` nor `)`, is an operator, and does not bind below the current precedence. The operator applied is the one the table gives. On stopping, a `)` is consumed only outside call parentheses. |
| ParseSpec.Input.OperatorStep | src/parser.rs:491-494 | Consumes the operator and at least the right operand's first item; ExprProps.OperatorStepShape states what it builds. |
| ParseSpec.Input.ParsePostfix | src/parser.rs:503-521 | On success the cursor never moves back; ExprProps.PostfixShape states what it builds and where it stops. |
| ParseSpec.Input.ParseCallExpr | src/parser.rs:538-592 | A call consumes at least its `(`. |
| ParseSpec.Input.CallArgs | src/parser.rs:556-579 | On success the cursor stays inside the stream and never moves back. |
| ParseSpec.Input.ArgSeparator | src/parser.rs:570-578 | Fails iff a comma in a vertical call is not followed by a newline. Otherwise another argument follows iff a comma is next, consuming the comma (and the newline when vertical) and nothing else. |
| ParseSpec.Input.ParseCallArg | src/parser.rs:557-568 | An argument consumes at least one item. |
| ParseSpec.Input.NamedArg | src/parser.rs:561-566 | A named argument keeps its name. |
| ParseSpec.Parse | src/parser.rs:82-89 | A parsed program is a block at indent 0. |
| Parsing.Parser.constructor | src/parser.rs:87 | The cursor starts at the first item. |
| Parsing.Parser.GetNextToken | src/parser.rs:71-80 | Agrees with `Input.GetNextToken` and moves the cursor to its `next`. A failure still pulls the item. |
| Parsing.Parser.Eat | src/parser.rs:604-613 | Agrees with `Input.Eat`, and the cursor is left at its `next`. |
| Parsing.Parser.SkipNewlines | src/parser.rs:247-255 | The loop leaves the cursor where `Input.SkipNewlines` says. |
| Parsing.Parser.ParseTypeDecl | src/parser.rs:314-342 | Agrees with `Input.ParseTypeDecl`, and the cursor is left at its `next`. |
| Parsing.Parser.ParseAnnotation | src/parser.rs:594-602 | Agrees with `Input.ParseAnnotation`, and the cursor is left at its `next`. |
| Parsing.Parser.ParseFnArgs | src/parser.rs:194-218 | The loop agrees with `Input.FnArgs` from the old cursor. |
| Parsing.Parser.FnArg | src/parser.rs:201-214 | Agrees with `Input.FnArg`, and the cursor is left at its `next`. |
| Parsing.Parser.ParseStructFields | src/parser.rs:256-268 | The loop agrees with `Input.StructFields`. |
| Parsing.Parser.StructField | src/parser.rs:261-266 | Agrees with `Input.StructField`, and the cursor is left at its `next`. |
| Parsing.Parser.ParseAttrAccess | src/parser.rs:523-536 | Agrees with `Input.ParseAttrAccess`, and the cursor is left at its `next`. |
| Parsing.Parser.ParseBlock | src/parser.rs:91-138 | The loop agrees with `Input.ParseBlock`. |
| Parsing.Parser.ParseStmt | src/parser.rs:139-192 | Agrees with `Input.ParseStmt`, and the cursor is left at its `next`. |
| Parsing.Parser.ParseExprStmt | src/parser.rs:169-192 | Agrees with `Input.ExprStmt`, and the cursor is left at its `next`. |
| Parsing.Parser.AssignmentRest | src/parser.rs:171-181 | Agrees with `Input.AssignmentRest`, and the cursor is left at its `next`. |
| Parsing.Parser.ExprStmtRest | src/parser.rs:183-191 | Agrees with `Input.ExprStmtRest`, and the cursor is left at its `next`. |
| Parsing.Parser.ParseStructDef | src/parser.rs:220-245 | Agrees with `Input.ParseStructDef`, and the cursor is left at its `next`. |
| Parsing.Parser.ParseStructMethods | src/parser.rs:270-279 | The loop agrees with `Input.StructMethods`. |
| Parsing.Parser.ParseFnDef | src/parser.rs:281-312 | Agrees with `Input.ParseFnDef`, and the cursor is left at its `next`. |
| Parsing.Parser.NestedBlock | src/parser.rs:300-304 | Agrees with `Input.NestedBlock`, and the cursor is left at its `next`. |
| Parsing.Parser.ParsePrimary | src/parser.rs:360-394 | Agrees with `Input.ParsePrimary`, and the cursor is left at its `next`. |
| Parsing.Parser.ParseConditional | src/parser.rs:396-442 | Agrees with `Input.ParseConditional`, and the cursor is left at its `next`. |
| Parsing.Parser.ConditionalBody | src/parser.rs:411-441 | Agrees with `Input.ConditionalBody`, and the cursor is left at its `next`. |
| Parsing.Parser.ParseElseBlock | src/parser.rs:417-435 | Agrees with `Input.ElseBlock`, and the cursor is left at its `next`. |
| Parsing.Parser.ElseBranch | src/parser.rs:421-430 | Agrees with `Input.ElseBranch`, and the cursor is left at its `next`. |
| Parsing.Parser.ParseExpr | src/parser.rs:444-455 | Agrees with `Input.ParseExpr`, and the cursor is left at its `next`. |
| Parsing.Parser.ParseExprWith | src/parser.rs:457-501 | Agrees with `Input.ParseExprWith`, and the cursor is left at its `next`. |
| Parsing.Parser.ExprLoop | src/parser.rs:469-498 | The loop agrees with `Input.ExprLoop`. |
| Parsing.Parser.OperatorStep | src/parser.rs:491-494 | Agrees with `Input.OperatorStep`, and the cursor is left at its `next`. |
| Parsing.Parser.ParsePostfix | src/parser.rs:503-521 | The loop agrees with `Input.ParsePostfix`. |
| Parsing.Parser.ParseCallExpr | src/parser.rs:538-592 | Agrees with `Input.ParseCallExpr`, and the cursor is left at its `next`. |
| Parsing.Parser.OpenArgs | src/parser.rs:542-554 | Agrees with `Input.OpenArgs`, and the cursor is left at its `next`. |
| Parsing.Parser.CloseArgs | src/parser.rs:581-584 | Agrees with `Input.CloseArgs`, and the cursor is left at its `next`. |
| Parsing.Parser.ParseCallArgs | src/parser.rs:556-579 | The loop agrees with `Input.CallArgs`. |
| Parsing.Parser.ArgSeparator | src/parser.rs:570-578 | Agrees with `Input.ArgSeparator`, and the cursor is left at its `next`. |
| Parsing.Parser.ParseCallArg | src/parser.rs:557-568 | Agrees with `Input.ParseCallArg`, and the cursor is left at its `next`. |
| Parsing.Parser.NamedArg | src/parser.rs:561-566 | Agrees with `Input.NamedArg`, and the cursor is left at its `next`. |
| Parsing.Parse | src/parser.rs:82-89 | Running the parser over a stream gives `ParseSpec.Parse`, a block at indent 0. |
| ParseProps.BlockLoopTail | src/parser.rs:115-123 | The block loop keeps the tail-expression rule: only the last statement may lack `;`, and `has_semi` is false exactly when it does. |
| ParseProps.BlockLoopEnd | src/parser.rs:98-113 | The block loop ends at the end of input or just after consuming a `Dedent`. |
| ParseProps.ParseBlockShape | src/parser.rs:91-138 | A parsed block has the requested indent, keeps the tail-expression rule, and ends at the end of input or after its `Dedent`. |
| ParseProps.ParseShape | src/parser.rs:82-89 | A parsed program is a block at indent 0 that keeps the tail-expression rule. |
| ParseProps.StatementAfterTail | src/parser.rs:114-117 | Any token that would start a statement after a tail expression is `UnexpectedStmt` at that token. |
| ParseProps.IndentInBlock | src/parser.rs:106-109 | An `Indent` where a statement is expected is `UnexpectedIndent` at it, expecting level 0. |
| ParseProps.ReturnShape | src/parser.rs:151-159 | `return` gives a return statement whose last consumed token is `;`. |
| ParseProps.DefShape | src/parser.rs:161-163 | `def` gives a function-definition statement. |
| ParseProps.StructShape | src/parser.rs:165-167 | `struct` gives a struct-definition statement. |
| ParseProps.ExprStmtShape | src/parser.rs:169-191 | Any other statement is an assignment ending in `;`, or an expression statement, which is the rest of the expression after its primary part when no `=` follows that part. |
| ParseProps.ExprStmtSemi | src/parser.rs:183-191 | An expression statement holds the expression read, consumes a `;` exactly when one follows it, and, unless the expression is a block or a conditional, is a tail expression exactly when no `;` follows. It fails exactly when the expression does. |
| ParseProps.ConditionalClosed | src/parser.rs:396-442 | Every parsed conditional has an else-chain of blocks and nested conditionals only. |
| ParseProps.ConditionalBodyClosed | src/parser.rs:411-441 | The same, for a conditional after its `:`. |
| ParseProps.ElseBlockClosed | src/parser.rs:417-435 | An `else` part is a block or a conditional with a closed chain. |
| ParseProps.ClosedIgnoresNext | src/parser.rs:344-358 | For a block or a closed conditional, `expr_has_semi` does not depend on whether `;` follows. |
| ParseProps.ElseBranchShape | src/parser.rs:421-430 | After `else`: `if` nests a conditional, and `:` opens a block one level deeper. Any other token is `ExpectedColon` at it. |
| ParseProps.ConditionalShape | src/parser.rs:396-416 | The condition is parsed at `Lowest` with annotation parsing off. The end of input after it is `UnexpectedEnd`, and any token other than `:` is `ExpectedColon` at that token. On success the condition is kept and the block is one level deeper. |
| ParseProps.TypeDeclShape | src/parser.rs:314-342 | A type annotation is at most one `mut` then an identifier. It succeeds iff that identifier is there, and is wrapped in `Mutable` exactly when `mut` was read. Otherwise it is `ExpectedTypeAnnotation` at the offending token, so a second `mut` is rejected too. |
| ExprProps.CallShape | src/parser.rs:538-592 | A call that parses is a `CallExpr` whose callee is the expression it was given. |
| ExprProps.PostfixShape | src/parser.rs:503-521 | With neither `(` nor `.` next, the expression comes back unchanged and nothing is consumed. After `(` the first step is a call of it, and after `.` an attribute access on it. The result is always the expression with calls and accesses wrapped around it, and the loop stops only where neither `(` nor `.` follows. |
| ExprProps.OperatorStepShape | src/parser.rs:489-494 | The right operand is parsed at the operator's own precedence, and the result is `BinExpr(lhs, op, rhs)` with postfix operations around it, or exactly that when none follows. A failure of the operand is the round's failure. |
| ExprProps.ExprLoopExtends | src/parser.rs:469-498 | The loop only extends its expression to the right, and every operator it applies binds at least as tightly as the precedence it was called with. |
| ExprProps.ParseExprWithExtends | src/parser.rs:457-501 | The same for `parse_expr_with` as a whole. |
| ExprProps.LoopHalts | src/parser.rs:469-500 | At the end, a lex error, `;`, a non-operator or an operator below the precedence, the loop stops without consuming and returns its expression. |
| ExprProps.LoopApplies | src/parser.rs:469-494 | At an infix operator not below the precedence, a round joins the expression and the right operand in a `BinExpr` and goes on after the operand. |
| ExprProps.IdentPrimary | src/parser.rs:360-394 | An identifier followed by no `(`, `.` or `:` is a primary expression on its own. |
| ExprProps.ChainGroupsRight | src/parser.rs:444-501 | For every chain `x0 o1 x1 … on xn` of identifiers whose operators never fall in precedence, parsed at a precedence not above the first and followed by an item that ends it, the result is `x0 o1 (x1 o2 (… on xn))`, and parsing stops right after `xn`. Equal precedences group to the right. |
| ExprProps.TighterBindsFirst | src/parser.rs:444-501 | In `a o1 b o2 c`, the operator of higher precedence binds tighter: `a o1 (b o2 c)` when `o2` is above `o1`, `(a o1 b) o2 c` when `o1` is above `o2`. |
| ExprProps.TighterLeft | src/parser.rs:444-501 | `a o1 b o2 c` with `o1` above `o2` is `(a o1 b) o2 c`, with the whole input consumed. |
| ExprProps.LastOperand | src/parser.rs:486-493 | A final identifier parsed at `AddSub` precedence is just that identifier. |
| ExprProps.ParseAdd | src/parser.rs:615-628 | `a + b` parses to `BinExpr(a, +, b)` and consumes all three tokens. |
| ExprProps.ParseAddMulti | src/parser.rs:630-654 | `a + b + c` parses to `a + (b + c)`. |
| ExprProps.RightOperand | src/parser.rs:630-654 | In `a + b + c`, the right operand of the first `+` is `b + c`. |
| Reporter.IndexOf | src/reporter.rs:77 | Gives the first index of a character, or none when the character is absent. |
| Reporter.LastIndexOf | src/reporter.rs:74 | Gives the last index of a character, or none when the character is absent. |
| Reporter.LineStart | src/reporter.rs:74 | The line start is 0 or just after a newline, with no newline between it and the index. |
| Reporter.LineEnd | src/reporter.rs:77 | The line end is the end of the text or a newline, with no newline between the index and it. |
| Reporter.ExtractLine | src/reporter.rs:66-84 | The extracted line is the slice of the source around the index, holds no newline, and is bounded by newlines or the text's ends. The column is the index's offset into it. |
| Reporter.ExtractLineNumber | src/reporter.rs:79 | The line number is the count of newlines before the line's start. |
| Reporter.SpanEnd | src/reporter.rs:89-95 | A span's end is clamped to the line. |
| Reporter.HighlightLine | src/reporter.rs:86-99 | The highlighted line is the line with red before the clamped span and reset after it. Everything else is unchanged. |
| Reporter.HighlightKeepsText | src/reporter.rs:97 | Removing the two escape sequences gives back the line. |
| Reporter.UnderlineLine | src/reporter.rs:101-116 | The underline is spaces, with the span replaced by red, exactly `len` carets and reset. |
| Reporter.UnderlineCarets | src/reporter.rs:103-104 | An underline holds exactly `len` carets, even past the end of the line. |
| Reporter.PrintErr | src/reporter.rs:54-64 | The header names the number of line breaks before `ix`, and `ix`. The highlighted line is the source line holding `ix` once the red and reset codes are taken out, with red starting at `ix`'s column. The underline carries exactly `len` carets, and a blank line ends the message. |
| Reporter.PrintErrLayout | src/reporter.rs:54-64 | The same layout for any header, line and column. |
| Reporter.Message | src/reporter.rs:13-51 | `UnexpectedEnd` is the fixed text. A lex error is reported at its position with length 1. Every other error is reported at its own span with its own description. |
| Reporter.Report | src/reporter.rs:7-52 | A parsed block passes through unchanged. An error becomes exactly its message. |
| CharTokenizer.Keyword | src/tokenizer.rs:181-194 | A word is a keyword iff it is one of the eight reserved words. |
| CharTokenizer.WordEnd | src/tokenizer.rs:166-174 | Gives the end of the maximal run of letters and `_` from the cursor. |
| CharTokenizer.DigitEnd | src/tokenizer.rs:196-198 | Gives the end of the maximal run of digits from the cursor. |
| CharTokenizer.Scan | src/tokenizer.rs:63-157 | One round skips iff the character is a space, and fails iff it is not a known start. A token's text is exactly the source it covers and holds no space. |
| CharTokenizer.TokenizeFrom | src/tokenizer.rs:61-160 | A successful run extends the tokens pushed so far. |
| CharTokenizer.Tokenizer.constructor | src/tokenizer.rs:53-59 | Both cursors start at 0 over the given text. |
| CharTokenizer.Tokenizer.NextCharIs | src/tokenizer.rs:161-163 | True iff a next character exists and is `ch`. |
| CharTokenizer.Tokenizer.GetCharOp | src/tokenizer.rs:212-216 | Yields the one-character token and moves both cursors one on. |
| CharTokenizer.Tokenizer.GetLongOp | src/tokenizer.rs:203-211 | Yields the two-character token and moves both cursors two on. |
| CharTokenizer.Tokenizer.GetAlphaLiteral | src/tokenizer.rs:165-180 | Reads the maximal word run, typed as its keyword or `Identifier`. |
| CharTokenizer.Tokenizer.GetNumericalLiteral | src/tokenizer.rs:195-202 | Reads the maximal digit run as an `Int` token. |
| CharTokenizer.Tokenizer.Tokenize | src/tokenizer.rs:61-160 | The loop returns `TokenizeFrom` of the old cursor, and a success ends at the end of the source. |
| CharTokenizer.Tokenizer.Step | src/tokenizer.rs:64-157 | The loop body equals `Scan` at the cursor. |
| CharTokenizer.TokenizeKeepsText | src/tokenizer.rs:61-160 | On success, the token texts put together are the source without its spaces. |
| CharTokenizer.TokenizeSpelling | src/tokenizer.rs:61-160 | The same, for a whole run from the start. |
| CharTokenizer.KnownCharsTokenize | src/tokenizer.rs:147-156 | A source of known characters always tokenizes. |
| CharTokenizer.TokenizeOkMeansKnown | src/tokenizer.rs:153-156 | A successful run met only known characters, or the `>` of `->`/`|>`. |
| CharTokenizer.OperatorScan | src/tokenizer.rs:81-146 | Reads the two-character operator exactly when the next character completes one, and the single character otherwise. |
| CharTokenizer.WordTypeKeyword | src/tokenizer.rs:181-194 | A word is typed as a keyword iff it is reserved. |
| CharTokenizer.WordScan | src/tokenizer.rs:150-152 | At a letter or `_`, reads the maximal word run, which holds no digit, as one token. |
| CharTokenizer.NumberScan | src/tokenizer.rs:147-149 | At a digit, reads the maximal digit run as one `Int` token. |
| CharTokenizer.BracesReadAsSquare | src/tokenizer.rs:78-79 | As written, `{`, `}` and `]` all give a `RSquare` token. |
| CharTokenizer.NoBraceTokens | src/tokenizer.rs:74-79 | As written, no run ever yields `LBrace` or `RBrace`. |
| CharTokenizer.FixedScan | src/tokenizer.rs:78-79 | With braces fixed, a token's text is still the source it covers. |
| CharTokenizer.FixedSingleTypeInjective | src/tokenizer.rs:74-79 | With braces fixed, distinct punctuation characters get distinct types. |
| CharTokenizer.FixedScanSingle | src/tokenizer.rs:71-146 | With braces fixed, a one-character token's type names its character. |
| CharTokenizer.FixedScanTypesDistinct | src/tokenizer.rs:74-79 | With braces fixed, two one-character tokens of the same type come from the same character. |
| PipeTokenizer.IsAlpha | experimental/pipe.py:71-73 | A letter is none of `+ * ( ) =` or a space, so the letter arm never takes an operator. |
| PipeTokenizer.AlphaEnd | experimental/pipe.py:55-59 | Gives the end of the maximal run of letters. |
| PipeTokenizer.Step | experimental/pipe.py:38-66 | One round ends strictly after where it started and at most one past the end. |
| PipeTokenizer.TokenizeFrom | experimental/pipe.py:37-69 | Extends the tokens so far and ends with the end-of-file token. |
| PipeTokenizer.Tokenizer.constructor | experimental/pipe.py:30-33 | Both cursors start at 0 over the given text. |
| PipeTokenizer.Tokenizer.NextCharIs | experimental/pipe.py:75-76 | True iff a next character exists and is `ch`. |
| PipeTokenizer.Tokenizer.Tokenize | experimental/pipe.py:35-69 | The loop returns `TokenizeFrom` of the old cursor, and the cursor ends past the source. |
| PipeTokenizer.Tokenizer.Round | experimental/pipe.py:38-66 | One round appends `Step`'s tokens and moves the cursor to `Step`'s end. |
| PipeTokenizer.StepWellFormed | experimental/pipe.py:38-66 | A round never emits end-of-file, and its identifiers carry a non-empty run of letters. |
| PipeTokenizer.TokenizeWellFormed | experimental/pipe.py:35-69 | A run ends with exactly one end-of-file token, and every identifier before it is a non-empty run of letters. |
| PipeTokenizer.TokenizeEndsWithEof | experimental/pipe.py:68-69 | The same, for `tokenize` on a whole source. |
| PipeTokenizer.EqualsReadTwice | experimental/pipe.py:50-53 | As written, `==` gives `EQ, ASSIGN, ASSIGN, EOF`: four `=` spelled for two in the source. |
| PipeTokenizer.IdentSkipsNext | experimental/pipe.py:54-66 | As written, `a+b` gives `a, b, EOF`: the `+` is lost. |
| PipeTokenizer.FixedStep | experimental/pipe.py:50-66 | The corrected round always moves forward and stays inside the source. |
| PipeTokenizer.FixedTokenizeFrom | experimental/pipe.py:37-69 | The corrected loop ends with the end-of-file token. |
| PipeTokenizer.FixedStepAccounts | experimental/pipe.py:38-66 | A corrected round spells exactly the operator and letter characters it consumes. |
| PipeTokenizer.FixedAccountsFrom | experimental/pipe.py:37-69 | The corrected loop spells every operator and letter character as often as the source holds it. |
| PipeTokenizer.FixedAccounts | experimental/pipe.py:35-69 | The corrected tokenizer loses and duplicates no `+ * ( ) =` and no letter. |

## Left out

- Panics are not process exits here. The lexer's `assert!`s and `expect` become `Abort` steps. The parser's `todo!()` on a lex error inside a block, and its `assert!` after a dot, become `Panicked` stops.
- The parser's position after a failure is not specified. On a failure the methods only promise to return the same error as the reference function.
- `ParseErr::UnexpectedMut` is rendered by the reporter but no parsing routine produces it. A second `mut` is an `ExpectedTypeAnnotation`.
- The `println!` calls (an invalid expression start, an invalid tokenizer character) and `src/main.rs` are I/O and are not modelled.
- Text is ASCII. `is_alphabetic`, `is_alphanumeric` and `is_numeric` are their ASCII versions, and byte offsets equal character indices.
- Only the `Tokenizer` class of `experimental/pipe.py` is modelled. Its parser and syntax tree are not part of this model.
- `LexStream.Run` stops at the first error or abort, because the parser never pulls past one.
- The token table: `as_operator`, `precedence` and `src_len` are defined outside the shipped files, so they are a parameter (`Tokens.TokenTable`).
- `src/token.rs` lacks fourteen variants the lexer and parser use, so they are added with the spelling the lexer reads them from. `src/ast.rs` does not describe the parser's tree, so `Ast` follows the parser's constructors.
- Reporter.Report: requires that every position an error names lies inside the source (`InSource`). The source would panic on slicing otherwise.
- The "Eepected Newline at Position" text is kept as written.
- `Display` for `LexErr` is `todo!()` in the source and is not modelled.
- `FloatLiteral` carries an `f32`. Floating point is not modelled, and the lexer never produces one.
- Reporter.HighlightLine: modelled as a function building the new string, not as `replace_range` on a `String` in place.
- Reporter.UnderlineLine: modelled as a function building the new string, not as `replace_range` on a `String` in place.
- Some lemmas about concrete unfoldings (e.g. `LexStream.LeadingSpacesCases`, `LexingProps.OperatorSpelling`, `LexingProps.Started*`) are proved by Dafny without a body. They serve as stepping stones for the others.

## Findings

| source | as written | input that shows it | evidently intended | confidence | as-written member | corrected member |
|---|---|---|---|---|---|---|
| experimental/pipe.py:50-53 | at `=` followed by `=`, both `EQ` and `ASSIGN` are appended and only one character is consumed, so the second `=` is read again | `==` gives `EQ, ASSIGN, ASSIGN, EOF` | `==` gives one `EQ` and consumes both characters | not executed | PipeTokenizer.EqualsReadTwice | PipeTokenizer.FixedAccounts |
| experimental/pipe.py:54-66 | after the letter run, the loop's closing `r += 1` also skips the character that ended it | `a+b` gives `a, b, EOF` | the character after an identifier is scanned in the next round | not executed | PipeTokenizer.IdentSkipsNext | PipeTokenizer.FixedAccounts |
| src/tokenizer.rs:78-79 | `{` and `}` are both pushed as `RSquare` | `{` and `]` give tokens of the same type; `LBrace`/`RBrace` never occur | `{` is `LBrace` and `}` is `RBrace` | not executed | CharTokenizer.BracesReadAsSquare | CharTokenizer.FixedScanTypesDistinct |
