# SysY front end in Dafny

This project models the front end of a compiler for SysY, a small C-like teaching language. It covers four parts:

- the token kinds and the token record;
- the error kinds, the error record and the shared error registry;
- the hand-written scanner (`Lexer`);
- the recursive-descent parser (`Parser`), which prints a derivation trace and recovers from missing `;`, `)` and `]`.

The model keeps the program's own shape:

- The enums and the immutable records (`TokenType`, `Token`, `ErrorType`, `Error`) are datatypes with functions.
- The three objects that change state step by step (`ErrorHandler`, `Lexer`, `Parser`) are classes. Their fields are updated by methods with `modifies` clauses, and their loops carry invariants.

Each stateful method is proved against a specification:

- **Scanner.** The scanner's output is tied to a functional description of one `scanToken` call (`LexSpec.ScanStep`) and of a whole run (`LexSpec.ScanFrom`). Lemmas about those functions state the scanning rules:
  - longest-match identifiers and numbers;
  - reserved-word lookup;
  - the two-character operators;
  - string and comment extents;
  - illegal characters;
  - line numbering.
- **Registry.** Sorting is proved stable.
- **Parser.** The primitives (`consume`, `match`, `expect`, `printNonTerminal`) state exactly how the cursor, the trace and the registry change.
  - Each expression procedure ends in exactly the state that a functional description of its grammar rule gives (`Parsing.LValFrom` through `Parsing.ExpFrom`, over a `Cursor` of position, trace and error log).
  - Lemmas about those functions state that an expression prints exactly the tokens it passes over, in order, and passes over no `=`. They also state that a binary-operator layer ends with its own marker and stops at the first token that is not one of its operators.
  - The assignment-or-expression statement is tied the same way to the `isAssignStmt` test and to the two statement forms.
  - The other statement, declaration and function procedures state less: that the cursor does not move back, that the registry's error log is only appended to, the marker they end with, and the registry invariant.

  The parser never adds an error on a line that already has a lexical error, and it only adds syntactic errors.

Modules, one per file:

- `Wrappers`: `Option`.
- `Text`: the decimal and space-splitting helpers used to read printed lines back.
- `TokenTypes`, `Tokens`, `ErrorTypes`, `Errors`, `ErrorRegistry`.
- `LexSpec`: the functional scanner specification.
- `Lexing`: the `Lexer` class.
- `Parsing`: the `Parser` class and the trace model.

## Model

| member | source | states |
|---|---|---|
| TokenTypes.Ordinal | compiler/lexer/TokenType.java:3-20 | a kind's declaration index is below 38 and indexes that same kind in the declared order |
| TokenTypes.AllKindsComplete | compiler/lexer/TokenType.java:3-20 | the enum has 38 constants and every kind is one of them |
| TokenTypes.KeywordKindsExact | compiler/lexer/TokenType.java:5-6 | there are 12 distinct reserved-word kinds, and they are exactly the keyword category |
| TokenTypes.CategoriesPartition | compiler/lexer/TokenType.java:4-19 | keywords, identifiers/literals, operators and delimiters partition the kinds: each kind is in exactly one group |
| TokenTypes.ExtensionsDistinct | compiler/lexer/TokenType.java:13-15 | only `!`, `=`, `<`, `>` have a two-character extension (`!=`, `==`, `<=`, `>=`), and it is a different operator kind |
| TokenTypes.DelimiterPairs | compiler/lexer/TokenType.java:16-19 | `(`, `[`, `{` each close with a different delimiter; the other delimiters are `;`, `,` and the closers |
| TokenTypes.NameRoundTrip | compiler/lexer/TokenType.java:3-20 | the printed constant name reads back as the same kind |
| TokenTypes.NameShape | compiler/lexer/TokenType.java:3-20 | every constant name is non-empty, has no space and starts with a capital letter |
| TokenTypes.NameInjective | compiler/lexer/TokenType.java:3-20 | distinct kinds print distinct names |
| Tokens.Token.ToString | compiler/lexer/Token.java:28-30 | the trace line is the kind's name, one space, then the token text (the length and the space position) |
| Tokens.ToStringReadBack | compiler/lexer/Token.java:28-30 | splitting a token line at its first space recovers the kind and the whole text, even when the text contains spaces |
| ErrorTypes.ErrorType.Code | compiler/error/ErrorType.java:5-31 | the code is `a` for the lexical kind, one of `ijk` for the syntactic kinds, and one of `bcdefghlm` for the semantic kinds (each as an if-and-only-if) |
| ErrorTypes.CodeRoundTrip | compiler/error/ErrorType.java:5-31 | every code maps back to its kind |
| ErrorTypes.CodeInjective | compiler/error/ErrorType.java:5-31 | the 13 codes are pairwise distinct |
| Errors.Error.ToString | compiler/error/Error.java:23-25 | the report line is a space-free line number, one space, then the kind's code |
| Errors.ToStringRoundTrip | compiler/error/Error.java:23-25 | parsing a report line gives back the same line number and kind, negative lines included |
| Text.SplitAtSpace | compiler/lexer/Token.java:28-30 | a space-free word, a space and a rest split back into that word and that rest |
| Text.NatToDecimal | compiler/error/Error.java:24 | the decimal text of a natural number is non-empty and all digits; `Text.NatDecimalRoundTrip` gives its meaning |
| Text.IntToDecimal | compiler/error/Error.java:24 | the decimal text of an int is non-empty and has no space, so the report line splits at its one space |
| Text.NatDecimalRoundTrip | compiler/error/Error.java:23-25 | the decimal digits of a natural number read back as that number |
| Text.IntDecimalRoundTrip | compiler/error/Error.java:23-25 | the decimal text of any integer, with its sign, reads back as that integer |
| ErrorRegistry.InsertByLine | compiler/error/ErrorHandler.java:47 | one insertion step of the stable sort adds exactly one record; where it goes is stated by the three Insert lemmas below |
| ErrorRegistry.SortByLine | compiler/error/ErrorHandler.java:47 | `List.sort` by line keeps the length; `ErrorRegistry.SortByLineIsStableSort` states that it sorts stably |
| ErrorRegistry.InsertKeepsSorted | compiler/error/ErrorHandler.java:45-49 | inserting into a line-sorted list keeps it sorted |
| ErrorRegistry.InsertPermutes | compiler/error/ErrorHandler.java:45-49 | insertion adds exactly the new record |
| ErrorRegistry.InsertOnLine | compiler/error/ErrorHandler.java:45-49 | insertion puts the new record after the records already on its line |
| ErrorRegistry.SortByLineIsStableSort | compiler/error/ErrorHandler.java:45-49 | sorting by line is sorted, is a permutation, and keeps the insertion order within each line (as `List.sort` is stable) |
| ErrorRegistry.OnLineAppend | compiler/error/ErrorHandler.java:45-49 | the records on one line of a concatenation are those of each part, in order |
| ErrorRegistry.OnLineAbove | compiler/error/ErrorHandler.java:45-49 | a sorted list has no records on a line below its first |
| ErrorRegistry.InsertLowerBound | compiler/error/ErrorHandler.java:45-49 | insertion keeps a common lower bound on lines |
| ErrorRegistry.LexicalLinesMeaning | compiler/error/ErrorHandler.java:26-32 | a line is in the lexical set iff some recorded error on it is ILLEGAL_SYMBOL |
| ErrorRegistry.ErrorHandler.constructor | compiler/error/ErrorHandler.java:14-18 | the registry starts with no errors and no lexical lines |
| ErrorRegistry.ErrorHandler.AddError | compiler/error/ErrorHandler.java:26-32 | the error is appended, and its line joins the lexical set exactly when it is ILLEGAL_SYMBOL |
| ErrorRegistry.ErrorHandler.AddErrorAt | compiler/error/ErrorHandler.java:35-37 | the same as AddError for the record built from a line and a kind |
| ErrorRegistry.ErrorHandler.HasLexicalErrorOnLine | compiler/error/ErrorHandler.java:40-42 | true iff an ILLEGAL_SYMBOL on that line was ever added, even after a clear |
| ErrorRegistry.ErrorHandler.GetErrors | compiler/error/ErrorHandler.java:45-49 | the stored list is replaced by its stable sort by line, which is returned: sorted, a permutation, and in the same order within each line |
| ErrorRegistry.ErrorHandler.HasErrors | compiler/error/ErrorHandler.java:52-54 | true iff an error was added since the last clear |
| ErrorRegistry.ErrorHandler.ClearErrors | compiler/error/ErrorHandler.java:57-59 | the list empties, but the lexical-line set is kept |
| LexSpec.KeywordTableBijective | compiler/lexer/Lexer.java:19-35 | the keyword table and the reserved-word kinds are in one-to-one correspondence |
| LexSpec.IsDigit | compiler/lexer/Lexer.java:210 | an ASCII decimal digit; no digit is a letter or `_`, so a number and an identifier never start on the same character |
| LexSpec.IsAlpha | compiler/lexer/Lexer.java:211 | no contract; the body is the Java range test for `a`-`z`, `A`-`Z` and `_` |
| LexSpec.IsAlphaNumeric | compiler/lexer/Lexer.java:212 | no contract; the body is isAlpha or isDigit |
| LexSpec.KindOfWord | compiler/lexer/Lexer.java:195 | a word gets a reserved-word kind exactly when it is in the keyword table, and then that keyword's text is the word; otherwise IDENFR |
| LexSpec.LineAtStep | compiler/lexer/Lexer.java:138-146 | the line counter goes up by one exactly when a newline is passed |
| LexSpec.LineAtMonotone | compiler/lexer/Lexer.java:138-146 | line numbers start at 1 and never decrease along the source |
| LexSpec.LineAtNoNewline | compiler/lexer/Lexer.java:138-146 | a span without a newline starts and ends on the same line |
| LexSpec.DigitRunEnd | compiler/lexer/Lexer.java:186 | the digit loop's stopping offset lies between the start and the end of the source |
| LexSpec.WordRunEnd | compiler/lexer/Lexer.java:193 | the identifier loop's stopping offset lies between the start and the end of the source |
| LexSpec.FindChar | compiler/lexer/Lexer.java:117-119 | the line-comment loop's stopping offset lies between the start and the end of the source |
| LexSpec.CommentClose | compiler/lexer/Lexer.java:121-126 | the block-comment loop stops within the source, either at its end or where a two-character `*/` still fits |
| LexSpec.DigitRunEndIsMaximal | compiler/lexer/Lexer.java:184-189 | the digit loop stops exactly at the end of the maximal digit run (if and only if) |
| LexSpec.WordRunEndIsMaximal | compiler/lexer/Lexer.java:191-197 | the identifier loop stops exactly at the end of the maximal run of letters, digits and `_` (if and only if) |
| LexSpec.FindCharIsFirst | compiler/lexer/Lexer.java:116-119 | the scan for a character stops exactly at its first occurrence, or at the end (if and only if) |
| LexSpec.CommentCloseIsFirst | compiler/lexer/Lexer.java:120-131 | the block-comment scan stops exactly at the first `*/`, or at the end (if and only if) |
| LexSpec.ScanStep | compiler/lexer/Lexer.java:52-166 | one scanToken call always consumes at least one character and stays within the source |
| LexSpec.SingleCharTokens | compiler/lexer/Lexer.java:56-67 | `+ - * %` become PLUS, MINU, MULT, MOD and `; , ( ) [ ] { }` become SEMICN, COMMA, LPARENT, RPARENT, LBRACK, RBRACK, LBRACE, RBRACE, each one token whose text is that character |
| LexSpec.TwoCharOperators | compiler/lexer/Lexer.java:69-96 | `!`, `=`, `<`, `>` followed by `=` become NEQ/EQL/LEQ/GEQ over two characters, and otherwise NOT/ASSIGN/LSS/GRE over one |
| LexSpec.LogicalOperators | compiler/lexer/Lexer.java:98-113 | `&&` and `\|\|` become AND and OR; a lone `&` or `\|` is reported as ILLEGAL_SYMBOL on its line and yields no token |
| LexSpec.Identifiers | compiler/lexer/Lexer.java:191-197 | an identifier is the longest word run; it is a reserved word iff the whole run is in the table, and IDENFR otherwise |
| LexSpec.Numbers | compiler/lexer/Lexer.java:184-189 | an integer literal is the longest run of digits |
| LexSpec.Strings | compiler/lexer/Lexer.java:169-182 | whenever a later quote exists, the string literal runs through the first one as a STRCON token on the line after it; an unclosed one yields nothing and is not reported |
| LexSpec.Comments | compiler/lexer/Lexer.java:115-135 | a line comment stops before the next newline; a block comment runs through the next `*/`, or to the end unreported |
| LexSpec.Whitespace | compiler/lexer/Lexer.java:138-146 | blanks and newlines are consumed one at a time and yield nothing |
| LexSpec.IllegalCharacters | compiler/lexer/Lexer.java:153-164 | any other character is reported once as ILLEGAL_SYMBOL on its own line and yields no token |
| LexSpec.StepTokensShape | compiler/lexer/Lexer.java:52-166 | a step adds at most one token; its text is the consumed slice and its line is the counter after the lexeme |
| LexSpec.ScannedTokenLines | compiler/lexer/Lexer.java:46-50 | every produced token has a kind and non-empty text, and a line within the source's lines |
| LexSpec.ScannedTokensOrdered | compiler/lexer/Lexer.java:46-50 | tokens come out in non-decreasing line order |
| LexSpec.ScannedTextLength | compiler/lexer/Lexer.java:46-50 | the token texts together are no longer than the source scanned |
| LexSpec.ScannedErrors | compiler/lexer/Lexer.java:46-50 | the scanner reports only ILLEGAL_SYMBOL, in non-decreasing line order |
| Lexing.Lexer.constructor | compiler/lexer/Lexer.java:37-39 | a new scanner is at offset 0 on line 1 with no tokens |
| Lexing.Lexer.GetTokens | compiler/lexer/Lexer.java:41-43 | the tokens so far, followed by the rest of the run, are the whole run's tokens; they are ordered and within the source's lines |
| Lexing.Lexer.Run | compiler/lexer/Lexer.java:46-50 | the scanner reaches the end, and the token list and the registry gain exactly what the specification's run produces |
| Lexing.Lexer.ScanToken | compiler/lexer/Lexer.java:52-166 | one call moves to the step's end and adds exactly the step's token and report |
| Lexing.Lexer.ScanSingle | compiler/lexer/Lexer.java:56-67 | the single-character arm adds the step's token and no report |
| Lexing.Lexer.ScanRelational | compiler/lexer/Lexer.java:69-96 | the relational arms add the step's one- or two-character token and no report |
| Lexing.Lexer.ScanLogical | compiler/lexer/Lexer.java:98-113 | the `&`/`\|` arms add the step's token or its ILLEGAL_SYMBOL report |
| Lexing.Lexer.ScanSlash | compiler/lexer/Lexer.java:115-135 | `/` yields DIV or skips a comment, with no report |
| Lexing.Lexer.SkipLineComment | compiler/lexer/Lexer.java:116-119 | the loop stops at the first newline or the end |
| Lexing.Lexer.SkipBlockComment | compiler/lexer/Lexer.java:120-131 | the loop stops just past the first `*/`, or at the end |
| Lexing.Lexer.ScanString | compiler/lexer/Lexer.java:169-182 | the string scan ends where the specification's step ends and adds its token, if any |
| Lexing.Lexer.ScanNumber | compiler/lexer/Lexer.java:184-189 | the number scan ends at the maximal digit run and adds its INTCON token |
| Lexing.Lexer.ScanIdentifier | compiler/lexer/Lexer.java:191-197 | the identifier scan ends at the maximal word run and adds the reserved-word or IDENFR token |
| Lexing.Lexer.IsAtEnd | compiler/lexer/Lexer.java:200 | no contract; the body is the Java test: the cursor is at or past the end of the source |
| Lexing.Lexer.Peek | compiler/lexer/Lexer.java:202 | the character at the cursor, and `'\0'` at or past the end |
| Lexing.Lexer.PeekNext | compiler/lexer/Lexer.java:203 | the character after the cursor, and `'\0'` when there is none |
| Lexing.Lexer.Advance | compiler/lexer/Lexer.java:201 | returns the current character and moves one place |
| Lexing.Lexer.Match | compiler/lexer/Lexer.java:204-208 | consumes the next character iff it is the expected one |
| Lexing.Lexer.AddToken | compiler/lexer/Lexer.java:209 | appends a token on the current line |
| Parsing.PeekIn | compiler/parser/Parser.java:26-45 | inside the list, peek gives the token there; past the end, a kindless sentinel on the last token's line (1 for an empty list) |
| Parsing.SentinelOnlyAtEnd | compiler/parser/Parser.java:26-45 | on a scanned list, a kindless token is seen iff the cursor is at or past the end |
| Parsing.ErrorLineIsTokenLine | compiler/parser/Parser.java:76-77 | a missing-token error is reported on the previous token's line (or the first token's line), or on line 1 for an empty list |
| Parsing.SkipEnd | compiler/parser/Parser.java:87-97 | the recovery loop's stopping index lies between the cursor and the end of the token list |
| Parsing.SkipEndIsFirst | compiler/parser/Parser.java:86-101 | recovery stops exactly at the first target, brace, semicolon or end of input (if and only if) |
| Parsing.PrintedLineReadBack | compiler/parser/Parser.java:47-56 | the printed trace reads back: `<...>` lines are exactly the markers and give their names; token lines give back the kind and the text |
| Parsing.TraceLineOf | compiler/parser/Parser.java:47-56 | consume prints one line for a token with a kind and none for the sentinel |
| Parsing.RenderedSplit | compiler/parser/Parser.java:86-101 | the lines printed for a token span are those of its two halves |
| Parsing.StmtCaseOf | compiler/parser/Parser.java:336-402 | the default arm is taken exactly for kinds other than if, for, break, continue, return, printf, `{` and `;` |
| Parsing.SwitchAsWritten | compiler/parser/Parser.java:333-336 | the switch as written reaches no arm iff the kind is null |
| Parsing.StmtDispatch | compiler/parser/Parser.java:333-426 | the intended dispatch sends a null kind to the default arm and otherwise agrees with the switch |
| Parsing.UnfinishedIfReplay | compiler/parser/Parser.java:231-342 | the parser's own calls for `int main ( ) { if ( x )` (main's head, the block's `{`, the `if` case through its `)`) leave the cursor at the end with a null kind and no report, where the switch as written takes no arm |
| Parsing.ExpectFrom | compiler/parser/Parser.java:68-77 | a two-argument expect consumes the token when its kind matches, and otherwise reports at the previous token's line unless that line had a lexical error; the cursor stays in the list |
| Parsing.LValFrom | compiler/parser/Parser.java:471-478 | LVal -> Ident [ `[` Exp `]` ]: the cursor stays in the list and does not move back |
| Parsing.NumberFrom | compiler/parser/Parser.java:494-497 | Number -> IntConst: the cursor stays in the list and does not move back |
| Parsing.PrimaryExpFrom | compiler/parser/Parser.java:481-491 | PrimaryExp -> `(` Exp `)` \| Number \| LVal: the cursor stays in the list and does not move back |
| Parsing.UnaryExpFrom | compiler/parser/Parser.java:500-516 | UnaryExp -> UnaryOp UnaryExp \| call \| PrimaryExp: the cursor stays in the list and does not move back |
| Parsing.CallFrom | compiler/parser/Parser.java:505-511 | a call consumes its identifier and `(`, then the arguments unless `)` is next, then expects `)`: it always moves the cursor |
| Parsing.FuncRParamsFrom | compiler/parser/Parser.java:525-531 | FuncRParams -> Exp { `,` Exp }: the cursor stays in the list and does not move back |
| Parsing.ArgumentsFrom | compiler/parser/Parser.java:527-529 | the comma loop of FuncRParams: the cursor stays in the list and does not move back |
| Parsing.OperandFrom | compiler/parser/Parser.java:536-606 | the operand of a layer is a UnaryExp for MulExp and the next inner layer otherwise |
| Parsing.LayerFrom | compiler/parser/Parser.java:536-606 | a binary-operator layer ends with its own marker, at the first token that is not one of its operators |
| Parsing.LayerTailFrom | compiler/parser/Parser.java:539-545 | the operator loop stops at the first token that is not one of the layer's operators, and keeps the layer's marker last |
| Parsing.ExpFrom | compiler/parser/Parser.java:610-613 | Exp -> AddExp: the cursor stays in the list and does not move back |
| Parsing.CondFrom | compiler/parser/Parser.java:615-618 | Cond -> LOrExp: the cursor stays in the list and does not move back |
| Parsing.ConstExpFrom | compiler/parser/Parser.java:620-623 | ConstExp -> AddExp: the cursor stays in the list and does not move back |
| Parsing.AssignStmtFrom | compiler/parser/Parser.java:408-412 | LVal `=` Exp `;`, with a missing `;` reported: the cursor stays in the list and does not move back |
| Parsing.ExpStmtFrom | compiler/parser/Parser.java:413-421 | Exp `;`, with a missing `;` reported: the cursor stays in the list and does not move back |
| Parsing.LValGrows | compiler/parser/Parser.java:471-478 | an lvalue only appends to the trace and the error log, prints exactly the tokens it passes over, in order, and passes over no `=` |
| Parsing.PrimaryExpGrows | compiler/parser/Parser.java:481-491 | the same for a PrimaryExp |
| Parsing.UnaryExpGrows | compiler/parser/Parser.java:500-516 | the same for a UnaryExp |
| Parsing.CallGrows | compiler/parser/Parser.java:505-511 | the same for a call |
| Parsing.FuncRParamsGrows | compiler/parser/Parser.java:525-531 | the same for FuncRParams |
| Parsing.ArgumentsGrows | compiler/parser/Parser.java:527-529 | the same for the comma loop of FuncRParams |
| Parsing.OperandGrows | compiler/parser/Parser.java:536-606 | the same for the operand of any layer |
| Parsing.LayerGrows | compiler/parser/Parser.java:536-606 | the same for every binary-operator layer |
| Parsing.LayerTailGrows | compiler/parser/Parser.java:539-545 | the same for a layer's operator loop |
| Parsing.ExpGrows | compiler/parser/Parser.java:610-613 | an Exp only appends to the trace and the log, prints exactly the tokens it passes over, in order, and passes over no `=` |
| Parsing.AssignStmtShape | compiler/parser/Parser.java:408-412 | an assignment prints exactly the tokens it passes over, and when the `=` is there, the `<LVal>` marker is directly followed by its line |
| Parsing.ExpStmtShape | compiler/parser/Parser.java:413-421 | an expression statement prints exactly the tokens it passes over, and none of them is `=` |
| Parsing.LoneIdentifier | compiler/parser/Parser.java:471-606 | an identifier followed by `)` is, on its own, a whole operand of every layer, and nothing is reported |
| Parsing.Parser.constructor | compiler/parser/Parser.java:16-20 | the parser starts at position 0 with an empty trace, over the shared registry |
| Parsing.Parser.Peek | compiler/parser/Parser.java:26-34 | no contract of its own; it is `Parsing.PeekIn` at the cursor, whose contract states the token or the end-of-input sentinel |
| Parsing.Parser.PeekAt | compiler/parser/Parser.java:36-45 | offset 0 is peek(); inside the list, the token at the cursor plus the offset; past the end, a kindless token |
| Parsing.Parser.Consume | compiler/parser/Parser.java:47-56 | returns the current token, prints it if it has a kind, and advances unless at the end |
| Parsing.Parser.Match | compiler/parser/Parser.java:58-66 | consumes the current token iff its kind is one of those given |
| Parsing.Parser.Expect | compiler/parser/Parser.java:72-104 | on a match, consumes and reports nothing; on a mismatch, reports at the previous token's line unless that line has a lexical error, then (when asked) skips to the recovery point, consuming the target if found |
| Parsing.Parser.MissingToken | compiler/parser/Parser.java:76-103 | on a mismatch: reports at the previous token's line unless that line has a lexical error, then either leaves the cursor and trace alone or skips to the recovery point, consuming the target if found |
| Parsing.Parser.ReportMissing | compiler/parser/Parser.java:76-83 | appends the error at the previous token's line (the current one at the start) exactly when a kind is given and that line has no lexical error |
| Parsing.Parser.ExpectNoSkip | compiler/parser/Parser.java:68-70 | on a match, consumes; on a mismatch, reports as expect does and leaves the cursor and trace unchanged |
| Parsing.Parser.SkipToTarget | compiler/parser/Parser.java:86-101 | the skip stops at the first stopping token, consuming and returning it when it is the target, and prints every token skipped |
| Parsing.Parser.SkipUntilStop | compiler/parser/Parser.java:87-97 | the skipping loop ends at the first stopping token and prints every token it passes |
| Parsing.Parser.EmitNonTerminal | compiler/parser/Parser.java:106-110 | appends the nonterminal's marker and nothing else |
| Parsing.Parser.IsAssignStmt | compiler/parser/Parser.java:433-447 | true iff an `=` occurs before the next `;`; the cursor does not move |
| Parsing.Parser.LVal | compiler/parser/Parser.java:471-478 | ends in exactly the state `LValFrom` gives: the identifier, an optional `[` Exp `]` with a missing `]` reported, then `<LVal>` |
| Parsing.Parser.PrimaryExp | compiler/parser/Parser.java:481-491 | ends in exactly the state `PrimaryExpFrom` gives: a parenthesised Exp, a Number or an LVal, then `<PrimaryExp>` |
| Parsing.Parser.Number | compiler/parser/Parser.java:494-497 | ends in exactly the state `NumberFrom` gives: the integer literal if present, then `<Number>` |
| Parsing.Parser.UnaryExp | compiler/parser/Parser.java:500-516 | ends in exactly the state `UnaryExpFrom` gives: a unary operator and operand, a call, or a PrimaryExp, then `<UnaryExp>` |
| Parsing.Parser.FunctionCall | compiler/parser/Parser.java:505-511 | ends in exactly the state `CallFrom` gives |
| Parsing.Parser.UnaryOp | compiler/parser/Parser.java:519-522 | consumes one token exactly when it is `+`, `-` or `!`, then prints `<UnaryOp>` |
| Parsing.Parser.FuncRParams | compiler/parser/Parser.java:525-531 | ends in exactly the state `FuncRParamsFrom` gives: comma-separated Exps, then `<FuncRParams>` |
| Parsing.Parser.Argument | compiler/parser/Parser.java:527-528 | one round of the loop: the `,` and an Exp, as `ExpFrom` after the comma gives |
| Parsing.Parser.MulExp | compiler/parser/Parser.java:536-546 | ends in exactly the state `LayerFrom` gives for the `*`/`/`/`%` layer |
| Parsing.Parser.MulStep | compiler/parser/Parser.java:542-544 | one round of the loop: the operator, a UnaryExp and `<MulExp>` |
| Parsing.Parser.AddExp | compiler/parser/Parser.java:549-558 | ends in exactly the state `LayerFrom` gives for the `+`/`-` layer |
| Parsing.Parser.AddStep | compiler/parser/Parser.java:554-556 | one round of the loop: the operator, a MulExp and `<AddExp>` |
| Parsing.Parser.Exp | compiler/parser/Parser.java:610-613 | ends in exactly the state `ExpFrom` gives: an AddExp, then `<Exp>` |
| Parsing.Parser.RelExp | compiler/parser/Parser.java:561-572 | ends in exactly the state `LayerFrom` gives for the relational layer; printing the marker before each operator and once at the end gives the same lines |
| Parsing.Parser.RelStep | compiler/parser/Parser.java:567-569 | one round of the loop: `<RelExp>`, the operator and an AddExp |
| Parsing.Parser.EqExp | compiler/parser/Parser.java:575-584 | ends in exactly the state `LayerFrom` gives for the `==`/`!=` layer |
| Parsing.Parser.EqStep | compiler/parser/Parser.java:580-582 | one round of the loop: the operator, a RelExp and `<EqExp>` |
| Parsing.Parser.LAndExp | compiler/parser/Parser.java:587-595 | ends in exactly the state `LayerFrom` gives for the `&&` layer |
| Parsing.Parser.LAndStep | compiler/parser/Parser.java:591-593 | one round of the loop: `&&`, an EqExp and `<LAndExp>` |
| Parsing.Parser.LOrExp | compiler/parser/Parser.java:598-606 | ends in exactly the state `LayerFrom` gives for the `\|\|` layer |
| Parsing.Parser.LOrStep | compiler/parser/Parser.java:602-604 | one round of the loop: `\|\|`, an LAndExp and `<LOrExp>` |
| Parsing.Parser.Cond | compiler/parser/Parser.java:615-618 | ends in exactly the state `CondFrom` gives: an LOrExp, then `<Cond>` |
| Parsing.Parser.ConstExp | compiler/parser/Parser.java:620-623 | ends in exactly the state `ConstExpFrom` gives: an AddExp, then `<ConstExp>` |
| Parsing.Parser.Decl | compiler/parser/Parser.java:150-156 | a declaration starting with const, static or int consumes input and ends with `<ConstDecl>` or `<VarDecl>`; the cursor does not move back and errors are only appended to the log |
| Parsing.Parser.ConstDecl | compiler/parser/Parser.java:159-168 | consumes input unless at the end and ends with `<ConstDecl>`; errors are only appended to the log |
| Parsing.Parser.VarDecl | compiler/parser/Parser.java:171-180 | consumes input when it starts with static or int, and ends with `<VarDecl>`; the cursor does not move back and errors are only appended to the log |
| Parsing.Parser.ConstDef | compiler/parser/Parser.java:183-192 | ends with `<ConstDef>`; the cursor does not move back and errors are only appended to the log |
| Parsing.Parser.VarDef | compiler/parser/Parser.java:195-205 | ends with `<VarDef>`; the cursor does not move back and errors are only appended to the log |
| Parsing.Parser.DefHead | compiler/parser/Parser.java:184-188 | the shared `Ident [ '[' ConstExp ']' ]` of ConstDef and VarDef keeps the registry consistent, does not move the cursor back and only appends errors to the log |
| Parsing.Parser.BType | compiler/parser/Parser.java:208-210 | consumes and prints `int` when it is current, and otherwise changes nothing (no marker) |
| Parsing.Parser.ConstInitVal | compiler/parser/Parser.java:300-314 | ends with `<ConstInitVal>`; the cursor does not move back and errors are only appended to the log |
| Parsing.Parser.InitVal | compiler/parser/Parser.java:316-330 | ends with `<InitVal>`; the cursor does not move back and errors are only appended to the log |
| Parsing.Parser.FuncDef | compiler/parser/Parser.java:218-228 | a definition starting with void or int consumes input, and ends with `<FuncDef>`; errors are only appended to the log |
| Parsing.Parser.FuncHead | compiler/parser/Parser.java:218-224 | the head `FuncType Ident ( [FuncFParams] )` consumes input when it starts with void or int; the cursor does not move back and errors are only appended to the log |
| Parsing.Parser.MainFuncDef | compiler/parser/Parser.java:231-238 | ends with `<MainFuncDef>`; the cursor does not move back and errors are only appended to the log |
| Parsing.Parser.FuncType | compiler/parser/Parser.java:241-248 | consumes void or int when current, then prints `<FuncType>` either way |
| Parsing.Parser.FuncFParams | compiler/parser/Parser.java:251-257 | ends with `<FuncFParams>`; the cursor does not move back and errors are only appended to the log |
| Parsing.Parser.FuncFParam | compiler/parser/Parser.java:260-267 | ends with `<FuncFParam>`; the cursor does not move back and errors are only appended to the log |
| Parsing.Parser.Block | compiler/parser/Parser.java:275-287 | a block stops at end of input or just after a `}`, and ends with `<Block>`; errors are only appended to the log |
| Parsing.Parser.BlockItem | compiler/parser/Parser.java:290-298 | an item starting with const, int or static consumes input; the cursor does not move back and errors are only appended to the log |
| Parsing.Parser.Stmt | compiler/parser/Parser.java:333-430 | every statement ends with `<Stmt>` and only appends errors to the log; at end of input only `<Stmt>` is printed and nothing is consumed or reported |
| Parsing.Parser.AssignOrExpStmt | compiler/parser/Parser.java:406-421 | takes the assignment form exactly when the statement starts with an identifier and an `=` comes before the next `;`, and then ends in the state `AssignStmtFrom` gives; otherwise it ends in the state `ExpStmtFrom` gives |
| Parsing.Parser.IfStmt | compiler/parser/Parser.java:337-347 | an if statement always consumes input and only appends errors to the log |
| Parsing.Parser.BreakOrContinueStmt | compiler/parser/Parser.java:363-368 | `break` or `continue` then `;` (a missing one reported) always consumes input and only appends errors to the log |
| Parsing.Parser.ReturnStmt | compiler/parser/Parser.java:370-377 | `return`, an Exp unless `;` is next, then `;` (a missing one reported) always consumes input and only appends errors to the log |
| Parsing.Parser.ForLoop | compiler/parser/Parser.java:349-361 | a for statement always consumes input and only appends errors to the log |
| Parsing.Parser.ForHead | compiler/parser/Parser.java:351-358 | the `for ( ... )` head always consumes input and only appends errors to the log |
| Parsing.Parser.ForClause | compiler/parser/Parser.java:353-358 | an optional ForStmt followed by `;` or by `)` with recovery; the cursor does not move back and errors are only appended to the log |
| Parsing.Parser.ForCondition | compiler/parser/Parser.java:355-356 | an optional Cond followed by `;`; the cursor does not move back and errors are only appended to the log |
| Parsing.Parser.PrintfStmt | compiler/parser/Parser.java:380-390 | a printf statement always consumes input and only appends errors to the log |
| Parsing.Parser.ForStmt | compiler/parser/Parser.java:450-460 | ends with `<ForStmt>`; the cursor does not move back and errors are only appended to the log |
| Parsing.Parser.Parse | compiler/parser/Parser.java:117-142 | the cursor only moves forward, the trace ends with `<CompUnit>`; errors are only appended to the log, and every error it adds is syntactic and on a line with no lexical error |

Proof helpers, which state steps of the proofs above rather than properties of the program, have no row: `TokenTypes.NamesGroup1` to `NamesGroup8`, `LexSpec.WordStep`, `LexSpec.DigitStep`, `LexSpec.ScanFromStep`, `LexSpec.SliceOfOne`, `LexSpec.SliceOfTwo`, `LexSpec.RunAdvances`, `LexSpec.ConcatRegroup`, `Text.BeforeSpace`, `Text.AfterSpace`, `Text.DigitChar`, `Text.DigitValue`, `Parsing.TokensOfAppend`, `Parsing.RenderedExtend`, `Parsing.GrowsTrans`, `Parsing.GrowsEmit`, `Parsing.GrowsTake`, `Parsing.GrowsExpect`, `Parsing.GrowsAfterTake`, `Parsing.LoneIdentifierUnary`, `Parsing.PrefixChain` and the stages `Parsing.ReplayMainHead`, `Parsing.ReplayMainParens`, `Parsing.ReplayIfHead` and `Parsing.ReplayCondition` of `Parsing.UnfinishedIfReplay`.

## Left out

- Compiler.java (the driver) is not part of this model. Reading files, the `PrintWriter` and writing the report are I/O. The trace is a field of `Line` values instead; `Line.Printed` gives the text each one prints.
- When the writer is null, `consume` and `printNonTerminal` print nothing. The model always records the trace, which is what a non-null writer receives.
- The `getInstance` singleton is modelled as one `ErrorHandler` object passed to the lexer and the parser.
- The `Token` and `Error` getters are datatype fields.
- Java's 32-bit `int` is not modelled. Line numbers and the scanner's offsets are unbounded, so overflow on sources of more than 2^31 characters or lines is out of scope.
- `char` is a Dafny `char`. There is no UTF-16 surrogate or Unicode handling beyond the ASCII classes that `isDigit` and `isAlpha` test.
- The `'\0'` that `peek` and `peekNext` return at the end is modelled by `Follows`, which is false past the end. A source containing a real NUL character is scanned like any other illegal character.
- The semantic error kinds (`b` to `h`, `l`, `m`) are enumerated with their codes. Semantic analysis itself is not part of the front end modelled here.
- The `switch` in `scanToken` is split into one method per group of arms (`ScanSingle`, `ScanRelational`, `ScanLogical`, `ScanSlash`, `ScanString`, `ScanNumber`, `ScanIdentifier`). The mismatch path of `expect` is split into `MissingToken`, with its report in `ReportMissing` and its skipping loop in `SkipToTarget` and `SkipUntilStop`. The identifier and optional dimension shared by `parseConstDef` and `parseVarDef` is one method, `DefHead`.
- The cases of `parseStmt` are split into `IfStmt`, `ForLoop`, `BreakOrContinueStmt`, `ReturnStmt`, `PrintfStmt` and `AssignOrExpStmt`. The block and empty cases stay inline in `Stmt`. The head of the `for` case is `ForHead`, with its three clauses in `ForClause` and `ForCondition`, and the head of `parseFuncDef` is `FuncHead`.
- The body of each binary-operator loop is its own method (`MulStep` through `LOrStep`), and so are the call branch of `parseUnaryExp` (`FunctionCall`) and the body of the `FuncRParams` loop (`Argument`). The `FuncRParams` loop tests for `,` and then consumes it, which does what `match(COMMA)` does.
- Parsing.Parser.Expect: requires the error kind, when present, to be syntactic. Every call site passes `MISSING_SEMICN`, `MISSING_RPARENT`, `MISSING_RBRACK` or no kind.
- Parsing.Parser.Decl, Parsing.Parser.ConstDecl, Parsing.Parser.VarDecl, Parsing.Parser.ConstDef, Parsing.Parser.VarDef, Parsing.Parser.DefHead, Parsing.Parser.ConstInitVal, Parsing.Parser.InitVal, Parsing.Parser.FuncDef, Parsing.Parser.FuncHead, Parsing.Parser.MainFuncDef, Parsing.Parser.FuncFParams, Parsing.Parser.FuncFParam, Parsing.Parser.Block, Parsing.Parser.BlockItem, Parsing.Parser.Stmt, Parsing.Parser.BreakOrContinueStmt, Parsing.Parser.ReturnStmt, Parsing.Parser.IfStmt, Parsing.Parser.ForLoop, Parsing.Parser.ForHead, Parsing.Parser.ForClause, Parsing.Parser.ForCondition, Parsing.Parser.PrintfStmt, Parsing.Parser.ForStmt, Parsing.Parser.Parse: these statement, declaration and function procedures do not state that the trace only grows, nor that its token lines between entry and exit are exactly the tokens passed over. They state that the cursor does not move back, that errors are only appended to the log, and the marker they end with. Carrying that printing invariant through their many nested calls exceeds the verifier's resource limit, and the model has no functional description of the statement and declaration grammar. The expression procedures and `AssignOrExpStmt` do state it, through the `Grows` lemmas.
- Parsing.Parser.Block: does not state which nonterminals are printed between the braces, only where the block stops and that it ends with `<Block>`.
- Parsing.Parser.Parse: states the final marker and the registry invariant. It does not state that the whole token list is consumed, because the Java parser does not require that either.
- Parsing.Parser.IfStmt, Parsing.Parser.ForLoop and Parsing.Parser.PrintfStmt state progress but not their printed structure, because that structure depends on the nested statements and the model gives a functional description only for expressions and for the assignment-or-expression statement.
- Aliasing: the token list is an immutable sequence, so the parser never sees it change. The Java `List` is shared with the lexer but is not mutated after scanning.

## Findings

| source | as written | input that shows it | evidently intended | confidence | as-written member | corrected member |
|---|---|---|---|---|---|---|
| compiler/parser/Parser.java:333-426 | `parseStmt` switches on `peek().getType()`, which is null at end of input; a Java `switch` on a null enum throws `NullPointerException`, so the end-of-input arm in `default` is dead | the tokens of `int main ( ) { if ( x )`: the `if` body starts at end of input | at end of input the statement prints only `<Stmt>` and returns, as the end-of-input arm of `default` says | not executed | Parsing.SwitchAsWritten, Parsing.UnfinishedIfReplay | Parsing.StmtDispatch, Parsing.Parser.Stmt |
