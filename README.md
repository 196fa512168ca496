# A verified model of the JavaVisualizer-Demo Java-subset pipeline

JavaVisualizer-Demo shows a small Java program running step by step. In the browser,
the program text goes through a lexer, a recursive-descent parser and a tree-walking
interpreter that records one trace step per evaluated node. Each step holds the line,
the scopes with their variables, the heap of arrays and objects, the call stack and the
console output so far. The editor keeps several files, combines them into one program
with a map from combined lines back to files, and highlights the variables and heap
entries that changed between two steps. A second route runs real Java: `CodeRunner`
rewrites the user's `main` so that each plain statement reports its line and variables,
and the runtime class `StateCapture` records those reports as the trace.

The pipeline exists twice in the repository: the current modules under `src/lib` and an
older single-file copy in `services/javaInterpreter.ts`. They differ in the keyword
and operator tables, char and long literals, the `%` level, the console escapes and the
optional `?.` on heap reads. This model describes both once, through a `Dialect`
parameter (`Modern` and `Legacy`).

Module by module:

- `Common`, `Text`: the result type, the error kinds, and the string primitives the
  source relies on (`trim`, `split`, `join`, decimal text, `JSON.stringify` of a string).
- `Dialects`, `Lexer`, `LexerFacts`: the tokenizer. Line counting, literals, keywords,
  operators, the stop on an unexpected character, and the end-of-file token. Words are
  typed by the keyword lookup as the source writes it, inherited names included (see
  Findings).
- `Ast`, `Parsing`, `ParserFacts`, `CursorParser`: the grammar. It is written once as
  functions over a token position. A `Parser` class with a cursor field mirrors it
  method by method, and each method is proved to agree with its function.
- `Values`, `Environments`, `Console`: run-time values and the JavaScript operators the
  interpreter borrows (truncating `/`, `%` with the dividend's sign, `===`). Scopes
  form an arena with parent links and support declare, assign, lookup and snapshot.
  `Console` covers `System.out` formatting and `interpretEscapes`.
- `Interpreter`, `InterpreterFacts`, `Statements`, `Expressions`: evaluation of every
  statement and expression kind, the trace and its step limit. The state invariant is
  proved to hold across the whole evaluator: scopes are only added, names are declared
  only in the current scope, the trace only grows, and heap ids are never reused.
- `Validation`: the brace and parenthesis balance check run before parsing.
- `Service`: the entry points that validate, parse and interpret, for both copies.
- `TraceDiff`: the changed-variable and changed-heap-id sets shown in the UI.
- `FileManager`: the editor's file list as a class, and the combined code with its
  line map. The class computes the map as the hook writes it; the corrected map
  described under Findings is defined and proved beside it.
- `CodeRunner`, `Instrument`: the helpers that extract names from a line, and
  `instrumentCode`.
- `StateCapture`: serialization of values, the insertion-ordered variable map, the step
  cap, console capture and `reset`. The class `Recorder` holds the static fields.

Where the code and its own comments disagree, the model follows the code. The comment
of `extractArrayName` gives `numeros` for `suma += numeros[i]`. The code returns
`null` for that line, because the text left of `=` is `suma +`, which is not an
identifier (`CodeRunner.CompoundReadExample`).

Console capture widens each byte the program prints: a byte from 0x80 up reaches the
buffer as a character from U+FF80 up (`StateCapture.WidenedBytes`). So non-ASCII output
in the Java route does not survive as text.

## Model

| member | source | states |
|---|---|---|
| Text.TrimStartFacts | src/lib/validate.ts:4 | the left trim of JavaScript's `trim` drops exactly a blank prefix and leaves no leading white space |
| Text.TrimEndFacts | src/lib/validate.ts:4 | the right trim drops exactly a blank suffix and leaves no trailing white space |
| Text.JsTrimFacts | src/lib/validate.ts:4 | `trim` returns a slice of the input with only blanks around it and no white space at either end |
| Text.TrimEmptyIffBlank | src/lib/validate.ts:4 | the trimmed code is empty if and only if the code is all white space, the case validation accepts at once |
| Text.Count | src/lib/validate.ts:15-20 | a character count never exceeds the length |
| Text.CountAppend | src/lib/validate.ts:15-20 | counts add up over concatenation |
| Text.Split | src/lib/validate.ts:7 | `split` gives one piece more than there are separators, and no piece holds a separator |
| Text.SplitAppend | src/lib/validate.ts:7 | splitting text joined at a separator gives the pieces of each side in order |
| Text.JoinSplit | src/hooks/useFileManager.ts:30-42 | joining the pieces of a split at the same separator gives back the text |
| Text.NatToString | src/hooks/useFileManager.ts:49 | the decimal text of a number is non-empty and all digits |
| Text.NatToStringRoundTrip | src/hooks/useFileManager.ts:49 | reading the decimal text back gives the number |
| Text.ReplacePair | src/lib/utils.ts:1-8 | replacing one escape pair never lengthens the text and leaves text without a backslash alone |
| Text.JavaTrim | java-runner/src/main/java/com/javavis/CodeRunner.java:107 | Java's `trim` leaves no character at or below a space at either end |
| Text.JsonQuote | src/lib/parser.ts:344 | `JSON.stringify` of a string is the text wrapped in double quotes, never shorter |
| Text.JsonEscape | src/lib/parser.ts:344 | escaping never shortens the text and leaves text with no quote, backslash or control character unchanged |
| Lexer.KeywordType | src/lib/lexer.ts:30-50 | the keyword table: the twenty keywords both copies share and the twelve only the modern copy has; a keyword is never a text-carrying kind |
| Lexer.TwoCharOp | src/lib/lexer.ts:69-73 | the two-character operator table (`%=` in the modern copy only); never a text-carrying kind |
| Lexer.OneCharOp | src/lib/lexer.ts:84-91 | the one-character operator table (`%`, `?`, `:` in the modern copy only); never a text-carrying kind |
| Lexer.WordTypeAsWritten | src/lib/lexer.ts:104 | the lookup `KEYWORDS[value] ?? Identifier` as written: a keyword gives its type, a name inherited from Object.prototype gives no token type, any other word Identifier |
| Lexer.WordType | src/lib/lexer.ts:104 | the intended lookup: Identifier exactly when the word is not a keyword |
| Lexer.WordEnd | src/lib/lexer.ts:101-103 | the end of the longest run of word characters from a position |
| Lexer.NextOf | src/lib/lexer.ts:63-145 | the first occurrence of the stop character at or after a position, or the end: where the comment loop (line feed) and the string loop (double quote) stop |
| Lexer.NumberEnd | src/lib/lexer.ts:114-117 | the end of a run of digits holding at most one dot, and whether it holds a dot |
| Lexer.ScanNumber | src/lib/lexer.ts:109-131 | a number branch always consumes at least one character |
| Lexer.ScanString | src/lib/lexer.ts:134-154 | a string branch that succeeds consumes at least the opening quote |
| Lexer.ScanChar | src/lib/lexer.ts:158-188 | a char-literal branch that succeeds consumes at least the opening quote |
| Lexer.ScanAt | src/lib/lexer.ts:52-191 | one turn of the loop: it advances the cursor, never lowers the line, gives a token on the current line that is never EOF, and fails only with a ParseError on the current line; a word gets its type from the lookup as written |
| Lexer.SkipComment | src/lib/lexer.ts:62-67 | the comment loop stops at the next line feed or the end |
| Lexer.ReadWord | src/lib/lexer.ts:99-107 | the word loop returns the longest word-character run and its end |
| Lexer.ReadNumber | src/lib/lexer.ts:109-131 | the number loop and suffix check produce the number token and position of the specification |
| Lexer.ReadString | src/lib/lexer.ts:134-154 | the string loop produces the string token, position and line count of the specification, or its error |
| Lexer.ReadChar | src/lib/lexer.ts:158-188 | the char-literal branch produces the token of the specification, or "Unclosed char literal." |
| Lexer.ScanOne | src/lib/lexer.ts:52-191 | one turn of the cursor loop equals the specification of that turn |
| Lexer.Tokenize | src/lib/lexer.ts:25-196 | the cursor loop returns exactly the token stream (or error) of the specification |
| LexerFacts.ScanAtLines | src/lib/lexer.ts:56-58 | after each turn the line counter has grown by exactly the line feeds consumed (none for a char literal) |
| LexerFacts.StringLines | src/lib/lexer.ts:138-143 | a string literal advances the line counter by the line feeds inside it |
| LexerFacts.NumberLines | src/lib/lexer.ts:109-131 | a number consumes no line feed and keeps the line |
| LexerFacts.LexFromShape | src/lib/lexer.ts:52-195 | the loop from any position extends the tokens so far to a well-formed stream whose last line counts at most the line feeds ahead |
| LexerFacts.TokenStreamShape | src/lib/lexer.ts:194-195 | the stream ends in exactly one EOF token, lines start at 1 and never decrease, and the last line is at most one more than the line feeds in the source |
| LexerFacts.LexErrorsAreParseErrors | src/lib/lexer.ts:147-191 | every failure of the tokenizer is a ParseError |
| LexerFacts.ScanWordMaximal | src/lib/lexer.ts:99-107 | a word token holds the longest run of word characters from its start; it has the keyword's type for a keyword, the inherited-member type exactly for the names inherited from Object.prototype, and is an Identifier exactly for every other word |
| LexerFacts.ScanTwoCharOperator | src/lib/lexer.ts:75-82 | a two-character operator becomes one token, ahead of its one-character prefix |
| LexerFacts.ScanCommentSkipsLine | src/lib/lexer.ts:62-67 | a `//` comment gives no token, keeps the line and stops at the next line feed |
| LexerFacts.ScanNumberShape | src/lib/lexer.ts:109-131 | a number token is a digit run with at most one dot; Double exactly when it has a dot, Long (modern copy) exactly when `L`/`l` follows, the suffix consumed but not kept |
| LexerFacts.ScanStringShape | src/lib/lexer.ts:134-154 | a string literal runs to the next quote, keeps its text, takes its starting line, counts its line feeds, and without a closing quote fails at its starting line |
| LexerFacts.StringIsScanString | src/lib/lexer.ts:134 | a double quote always starts the string branch |
| LexerFacts.CharIsScanChar | src/lib/lexer.ts:158 | in the modern copy a single quote always starts the char-literal branch |
| LexerFacts.CharLiteralExample | src/lib/lexer.ts:158-188 | `'a'` is a CharLiteral in the modern copy and "Unexpected character" in the legacy one |
| LexerFacts.CharEscapeExample | src/lib/lexer.ts:163-175 | `'\n'` is a line feed and an unknown escape `'\q'` is `q` |
| LexerFacts.IncrementExample | src/lib/lexer.ts:69-82 | `i++` is an Identifier then one PlusPlus token then EOF |
| LexerFacts.LegacyRejectsModernCharacters | services/javaInterpreter.ts:83-91 | the legacy tokenizer stops on `%`, `?`, `:` and `'` with "Unexpected character", where the modern one goes on |
| LexerFacts.LegacyTokenKinds | services/javaInterpreter.ts:44-51 | the legacy tokenizer never yields a long or char literal, a modern-only keyword or a modern-only operator |
| LexerFacts.InheritedNamesAreNotIdentifiers | src/lib/lexer.ts:104 | for `toString`, `constructor` and the other inherited names the lookup as written gives no token type, the intended one an Identifier |
| Parsing.Expect | src/lib/parser.ts:17-24 | succeeds exactly when the current token has the wanted type, returning it and moving one past; otherwise a ParseError with the message and the current token's line (a runtime TypeError when the tokens ran out) |
| Parsing.Classify | src/lib/parser.ts:57-76 | a statement is a method declaration exactly when a type token is followed by a name (or `[ ] name`) and then `(`, a variable declaration exactly when that `(` is absent |
| Parsing.Parse | src/lib/parser.ts:29-35 | a parsed program carries line 1 |
| Parsing.ParseProgramFrom | src/lib/parser.ts:31-33 | the statement loop up to EOF yields a program on line 1 |
| Parsing.ParseStmt | src/lib/parser.ts:37-79 | every statement parsed consumes at least one token and stays inside the stream |
| Parsing.ParseBreak | src/lib/parser.ts:47-51 | `break ;` gives a BreakStatement on the keyword's line and consumes exactly two tokens |
| Parsing.ParseContinue | src/lib/parser.ts:52-56 | `continue ;` gives a ContinueStatement on the keyword's line and consumes exactly two tokens |
| Parsing.ParseDeclaration | src/lib/parser.ts:57-77 | the node parsed has the form Classify predicts: method, variable or expression statement |
| Parsing.ParseClass | src/lib/parser.ts:81-92 | a class declaration on the `class` line whose last token is the closing `}` |
| Parsing.SkipModifiers | src/lib/parser.ts:87 | stops on the first token that is neither `public` nor `static` |
| Parsing.ParseClassBody | src/lib/parser.ts:86-89 | the member loop stays inside the stream |
| Parsing.ArraySuffix | src/lib/parser.ts:97-100 | an optional `[ ]` after a type name stays inside the stream |
| Parsing.ParseMethod | src/lib/parser.ts:94-120 | a method declaration on the return type's line, ending at the body's `}` |
| Parsing.MethodTail | src/lib/parser.ts:101-119 | the declaration keeps the return type and name read before it and ends at `}` |
| Parsing.ParseParamList | src/lib/parser.ts:104-116 | an immediate `)` gives no parameters and consumes nothing |
| Parsing.ParseParam | src/lib/parser.ts:107-114 | one parameter consumes at least its type and name |
| Parsing.ParseParamAt | src/lib/parser.ts:108-114 | a parameter ends on its name and takes the line of the token after it |
| Parsing.ParseParams | src/lib/parser.ts:106-115 | the do-while loop adds at least one parameter and keeps those already read as a prefix |
| Parsing.ParseBlock | src/lib/parser.ts:122-130 | a block starts at `{` on that token's line and ends at `}` |
| Parsing.ParseBlockBody | src/lib/parser.ts:125-127 | the statement loop inside a block stays inside the stream |
| Parsing.ParseVarDecl | src/lib/parser.ts:132-148 | a variable declaration on its type's line that ends at `;` |
| Parsing.VarDeclTail | src/lib/parser.ts:140-147 | keeps the type and name, ends at `;`, and has an initializer exactly when `=` follows the name |
| Parsing.ParseInitializer | src/lib/parser.ts:141-145 | without `=` there is no initializer and nothing is consumed; with `=` there is one |
| Parsing.ParseFor | src/lib/parser.ts:150-160 | a for statement on the `for` line with an initializer, a test and an update all present |
| Parsing.ParseCondition | src/lib/parser.ts:164-166 | a parenthesised condition ends at `)` |
| Parsing.ParseWhile | src/lib/parser.ts:162-169 | a while statement on the `while` line |
| Parsing.ParseDoWhile | src/lib/parser.ts:171-180 | a do-while statement on the `do` line ending at `;` |
| Parsing.DoWhileTail | src/lib/parser.ts:174-179 | the `while ( test ) ;` tail ends at `;` |
| Parsing.ParseIf | src/lib/parser.ts:182-194 | an if statement on the `if` line |
| Parsing.ParseElse | src/lib/parser.ts:188-192 | without `else` there is no alternate and nothing is consumed |
| Parsing.ParseElseBranch | src/lib/parser.ts:189-192 | an `else` branch consumes at least the keyword |
| Parsing.ParseReturn | src/lib/parser.ts:196-204 | a return statement on the `return` line ending at `;` |
| Parsing.ParseReturnArgument | src/lib/parser.ts:198-201 | an immediate `;` gives no argument and consumes nothing |
| Parsing.ParseExprStmt | src/lib/parser.ts:206-211 | an expression statement ends at `;` and takes that token's line |
| Parsing.Tighter | src/lib/parser.ts:226-278 | each binary level defers to the level one rank tighter |
| Parsing.ParseExpr | src/lib/parser.ts:214 | an expression consumes at least one token |
| Parsing.ParseAssignment | src/lib/parser.ts:216-224 | assignment (right associative) consumes at least one token |
| Parsing.ParseBinary | src/lib/parser.ts:226-278 | each left-associative level consumes at least one token |
| Parsing.ParseOperand | src/lib/parser.ts:227-267 | the operand of a level is the next tighter level or the unary level |
| Parsing.ParseBinaryLoop | src/lib/parser.ts:228-233 | the operator loop stays inside the stream |
| Parsing.ParseUnary | src/lib/parser.ts:280-287 | a leading `!` or `-` gives a UnaryExpr with that operator on its line |
| Parsing.ParseCallMember | src/lib/parser.ts:289-297 | a primary with its call and member suffixes consumes at least one token |
| Parsing.ParseCallMemberLoop | src/lib/parser.ts:291-295 | the suffix loop stays inside the stream |
| Parsing.ParseArguments | src/lib/parser.ts:301-307 | an immediate `)` gives no arguments and consumes nothing |
| Parsing.ParseCall | src/lib/parser.ts:299-310 | a call keeps its callee and line and ends at `)` |
| Parsing.ParseExprList | src/lib/parser.ts:303-306 | the comma loop adds at least one expression and keeps the earlier ones as a prefix |
| Parsing.ParseMember | src/lib/parser.ts:312-317 | a member access keeps its object, its computed flag and its line |
| Parsing.ParsePrimary | src/lib/parser.ts:319-346 | a primary expression consumes at least one token |
| Parsing.IntegerValue | src/lib/parser.ts:330 | `parseInt` of a digit run is its value, and is modelled only when a double holds that value exactly |
| ParserFacts.IntegerLiteralParsed | src/lib/parser.ts:330 | an integer literal becomes a numeric literal holding the value of its digits when a double holds it exactly; a longer literal is outside the model |
| Parsing.ParseName | src/lib/parser.ts:322-329 | a name followed by `++`/`--` is a postfix expression over that name consuming two tokens, otherwise the identifier alone consuming one |
| Parsing.ParseNew | src/lib/parser.ts:348-363 | `new` needs a name; the result is `new C()` with no arguments or `new T[size]`; a non-name after `new` is the source's ParseError |
| Parsing.NewRest | src/lib/parser.ts:352-362 | after `new C` comes `( )` or `[ size ]`, on the `new` line |
| Parsing.ParseArrayLiteral | src/lib/parser.ts:365-376 | `{ ... }` is an int array creation with values and no size, ending at `}` |
| ParserFacts.UnaryIsMultiplicative | src/lib/parser.ts:266-278 | a unary operand not followed by an operator is already a whole multiplicative expression |
| ParserFacts.LiftLevel | src/lib/parser.ts:226-278 | an expression complete at one level is the same expression at every looser level |
| ParserFacts.LiftToExpr | src/lib/parser.ts:214-224 | an expression complete at some level is what parseExpr returns from that position |
| ParserFacts.BinaryGroupsLeft | src/lib/parser.ts:228-232 | `a op b op c` at one level groups as `(a op b) op c` |
| ParserFacts.AssignmentGroupsRight | src/lib/parser.ts:216-224 | `a = b = c` groups as `a = (b = c)` |
| ParserFacts.MultiplicationBindsTighter | src/lib/parser.ts:256-278 | `a + b * c` parses as `a + (b * c)` |
| ParserFacts.Sum | src/lib/parser.ts:256-264 | two products joined by one additive operator, with the expression ending after the second, parse as that one sum |
| ParserFacts.Product | src/lib/parser.ts:266-278 | `b * c` followed by a non-multiplicative token is one product |
| ParserFacts.SingleFactor | src/lib/parser.ts:266-278 | a unary expression followed by a non-multiplicative token is the whole multiplicative level |
| ParserFacts.BinaryStart | src/lib/parser.ts:227-228 | a level parses its first operand and then enters its operator loop |
| ParserFacts.AssignStep | src/lib/parser.ts:218-222 | a `=` after the left side gives an assignment of the right side, on the left side's line |
| ParserFacts.AssignStops | src/lib/parser.ts:223 | without `=` the left side is the whole expression |
| ParserFacts.LoopStep | src/lib/parser.ts:228-232 | each operator of the level folds the next operand into the left side |
| ParserFacts.LoopStops | src/lib/parser.ts:228 | a token that is not an operator of the level ends the loop with the left side |
| ParserFacts.LoopEnds | src/lib/parser.ts:248 | past the last token only the comparison loop fails (it reads the type of a missing token) |
| ParserFacts.ModernRemainder | src/lib/parser.ts:266-278 | the modern parser reads `a % b` as a binary `%` expression |
| ParserFacts.LegacyRejectsRemainder | services/javaInterpreter.ts:446-454 | the legacy parser stops before `%` and reports the missing `;` on that line |
| ParserFacts.EmptyProgram | src/lib/parser.ts:29-35 | a stream holding only EOF is the empty program on line 1 |
| ParserFacts.NewPrimitiveArrayRejected | src/lib/parser.ts:348-351 | `new int[...]` is refused, because `int` is a keyword and not an identifier |
| ParserFacts.IntIsKeyword | src/lib/lexer.ts:104 | `int` is looked up as the Int keyword in both dialects |
| ParserFacts.PrimaryFailureRises | src/lib/parser.ts:226-346 | an expression whose first token is no unary operator and no valid primary fails at every binary level with the primary's error |
| ParserFacts.InheritedNameDeclarationRejected | src/lib/parser.ts:57-77 | a type keyword followed by an inherited name, as in `int constructor = 1;` or `String toString() {`, is no declaration and fails with `Unexpected token` at the type keyword |
| ParserFacts.TypeKeywordKind | src/lib/lexer.ts:30-50 | `int`, `void`, `boolean`, `double` and `String` scan to their own keyword types in both dialects |
| ParserFacts.TypeKeywordIsExpression | src/lib/parser.ts:57-77 | a type keyword not followed by an identifier or `[ ]` starts an expression statement |
| ParserFacts.TypeKeywordPrimary | src/lib/parser.ts:343-345 | a type keyword is an unexpected primary, reported with its quoted text at its line |
| ParserFacts.TypeKeywordStatement | src/lib/parser.ts:57-77 | a statement opened by a type keyword and an inherited-name token fails with `Unexpected token` at the keyword |
| ParserFacts.ReturnValuePresent | src/lib/parser.ts:196-204 | a return has no argument exactly when `;` follows the keyword |
| ParserFacts.ElsePresent | src/lib/parser.ts:188-192 | an if has an alternate exactly when `else` follows the consequent |
| ParserFacts.ParamListEmpty | src/lib/parser.ts:104-116 | a parameter list is empty exactly when `)` follows `(` |
| ParserFacts.ArgumentsEmpty | src/lib/parser.ts:301-307 | an argument list is empty exactly when `)` follows `(` |
| ParserFacts.JumpNeedsSemicolon | src/lib/parser.ts:47-56 | break and continue parse exactly when `;` follows them |
| ParserFacts.PostfixWhenIncrementFollows | src/lib/parser.ts:324-329 | a name becomes a postfix expression exactly when `++` or `--` follows it |
| CursorParser.ParseTokens | src/lib/parser.ts:10-35 | building a parser on the tokens and calling parse gives exactly Parsing.Parse |
| CursorParser.Parser.constructor | src/lib/parser.ts:7-12 | the parser holds the tokens with its cursor at 0 |
| CursorParser.Parser.Expect | src/lib/parser.ts:17-24 | the result and the new cursor are those of Parsing.Expect from the old cursor |
| CursorParser.Parser.ParseProgram | src/lib/parser.ts:29-35 | the loop returns Parsing.ParseProgramFrom from the old cursor |
| CursorParser.Parser.ParseStmt | src/lib/parser.ts:37-79 | result and new cursor are those of Parsing.ParseStmt |
| CursorParser.Parser.ParseBreak | src/lib/parser.ts:47-51 | result and new cursor are those of Parsing.ParseBreak |
| CursorParser.Parser.ParseContinue | src/lib/parser.ts:52-56 | result and new cursor are those of Parsing.ParseContinue |
| CursorParser.Parser.ParseDeclaration | src/lib/parser.ts:57-77 | result and new cursor are those of Parsing.ParseDeclaration |
| CursorParser.Parser.ParseClass | src/lib/parser.ts:81-92 | result and new cursor are those of Parsing.ParseClass |
| CursorParser.Parser.ParseClassBody | src/lib/parser.ts:86-89 | the member loop gives Parsing.ParseClassBody |
| CursorParser.Parser.SkipModifiers | src/lib/parser.ts:87 | the loop stops where Parsing.SkipModifiers says and leaves the cursor there |
| CursorParser.Parser.ArraySuffix | src/lib/parser.ts:97-100 | result and new cursor are those of Parsing.ArraySuffix |
| CursorParser.Parser.ParseMethod | src/lib/parser.ts:94-120 | result and new cursor are those of Parsing.ParseMethod |
| CursorParser.Parser.MethodTail | src/lib/parser.ts:101-119 | result and new cursor are those of Parsing.MethodTail |
| CursorParser.Parser.ParseParamList | src/lib/parser.ts:104-116 | result and new cursor are those of Parsing.ParseParamList |
| CursorParser.Parser.ParseParam | src/lib/parser.ts:107-114 | result and new cursor are those of Parsing.ParseParam |
| CursorParser.Parser.ParseParamAt | src/lib/parser.ts:108-114 | result and new cursor are those of Parsing.ParseParamAt |
| CursorParser.Parser.ParseParams | src/lib/parser.ts:106-115 | the do-while loop gives Parsing.ParseParams |
| CursorParser.Parser.ParseBlock | src/lib/parser.ts:122-130 | the statement loop gives Parsing.ParseBlock |
| CursorParser.Parser.ParseVarDecl | src/lib/parser.ts:132-148 | result and new cursor are those of Parsing.ParseVarDecl |
| CursorParser.Parser.VarDeclTail | src/lib/parser.ts:140-147 | result and new cursor are those of Parsing.VarDeclTail |
| CursorParser.Parser.ParseInitializer | src/lib/parser.ts:141-145 | result and new cursor are those of Parsing.ParseInitializer |
| CursorParser.Parser.ParseFor | src/lib/parser.ts:150-160 | result and new cursor are those of Parsing.ParseFor |
| CursorParser.Parser.ParseCondition | src/lib/parser.ts:164-166 | result and new cursor are those of Parsing.ParseCondition |
| CursorParser.Parser.ParseWhile | src/lib/parser.ts:162-169 | result and new cursor are those of Parsing.ParseWhile |
| CursorParser.Parser.ParseDoWhile | src/lib/parser.ts:171-180 | result and new cursor are those of Parsing.ParseDoWhile |
| CursorParser.Parser.DoWhileTail | src/lib/parser.ts:174-179 | result and new cursor are those of Parsing.DoWhileTail |
| CursorParser.Parser.ParseIf | src/lib/parser.ts:182-194 | result and new cursor are those of Parsing.ParseIf |
| CursorParser.Parser.ParseElse | src/lib/parser.ts:188-192 | result and new cursor are those of Parsing.ParseElse |
| CursorParser.Parser.ParseElseBranch | src/lib/parser.ts:189-192 | result and new cursor are those of Parsing.ParseElseBranch |
| CursorParser.Parser.ParseReturn | src/lib/parser.ts:196-204 | result and new cursor are those of Parsing.ParseReturn |
| CursorParser.Parser.ParseReturnArgument | src/lib/parser.ts:198-201 | result and new cursor are those of Parsing.ParseReturnArgument |
| CursorParser.Parser.ParseExprStmt | src/lib/parser.ts:206-211 | result and new cursor are those of Parsing.ParseExprStmt |
| CursorParser.Parser.ParseExpr | src/lib/parser.ts:214 | result and new cursor are those of Parsing.ParseExpr |
| CursorParser.Parser.ParseAssignment | src/lib/parser.ts:216-224 | result and new cursor are those of Parsing.ParseAssignment |
| CursorParser.Parser.ParseBinary | src/lib/parser.ts:226-278 | the operator loop gives Parsing.ParseBinary |
| CursorParser.Parser.ParseOperand | src/lib/parser.ts:227-267 | result and new cursor are those of Parsing.ParseOperand |
| CursorParser.Parser.ParseUnary | src/lib/parser.ts:280-287 | result and new cursor are those of Parsing.ParseUnary |
| CursorParser.Parser.ParseCallMember | src/lib/parser.ts:289-297 | the suffix loop gives Parsing.ParseCallMember |
| CursorParser.Parser.ParseCall | src/lib/parser.ts:299-310 | result and new cursor are those of Parsing.ParseCall |
| CursorParser.Parser.ParseArguments | src/lib/parser.ts:301-307 | result and new cursor are those of Parsing.ParseArguments |
| CursorParser.Parser.ParseExprList | src/lib/parser.ts:303-306 | the do-while loop gives Parsing.ParseExprList |
| CursorParser.Parser.ParseMember | src/lib/parser.ts:312-317 | result and new cursor are those of Parsing.ParseMember |
| CursorParser.Parser.ParsePrimary | src/lib/parser.ts:319-346 | result and new cursor are those of Parsing.ParsePrimary |
| CursorParser.Parser.ParseName | src/lib/parser.ts:322-329 | result and new cursor are those of Parsing.ParseName |
| CursorParser.Parser.ParseNew | src/lib/parser.ts:348-363 | result and new cursor are those of Parsing.ParseNew |
| CursorParser.Parser.NewRest | src/lib/parser.ts:352-362 | result and new cursor are those of Parsing.NewRest |
| CursorParser.Parser.ParseArrayLiteral | src/lib/parser.ts:365-376 | result and new cursor are those of Parsing.ParseArrayLiteral |
| Values.HeapRefIsRef | src/lib/interpreter.ts:189-204 | a value is a heap reference exactly when it is a `{ __ref__ }` reference |
| Values.HeapKey | src/lib/interpreter.ts:186-193 | heap keys read `heap_` followed by the id |
| Values.HeapKeyInjective | src/lib/interpreter.ts:186-193 | distinct ids give distinct heap keys |
| Values.Find | src/lib/interpreter.ts:178-266 | the lookup finds an entry exactly when the id was stored, and returns that entry |
| Values.Store | src/lib/interpreter.ts:187-202 | after storing, the id maps to the new entry, every other id is unchanged, and a new id is added last |
| Values.HeapAt | src/lib/interpreter.ts:178-266 | reading `__ref__` of null or undefined throws; a reference reads its entry; any other value reads nothing |
| Values.ReadIndex | src/lib/interpreter.ts:212 | an in-range integer index reads that element, an out-of-range one reads undefined, as does a double (never an index), and a string index is not modelled |
| Values.WriteIndex | src/lib/interpreter.ts:179 | the element at the index becomes the value, the others are kept, and a write past the end grows the array with holes |
| Values.DefaultValue | src/lib/interpreter.ts:195-197 | boolean arrays start at false, int and double arrays at 0, all others at null |
| Values.FilledArray | src/lib/interpreter.ts:201 | `Array(n).fill(d)` holds n copies of d for a valid length (0 to 2^32 - 1), and is a RangeError for a negative, too large or fractional length |
| Values.JsonCopyHeap | src/lib/interpreter.ts:42 | the JSON round trip keeps every heap id and the kind of every entry |
| Values.JsonCopyValue | src/lib/interpreter.ts:42 | after the JSON round trip no array holds undefined |
| Values.DoubleLiteralValue | src/lib/parser.ts:331 | `parseFloat` of a literal with a zero fraction is the integer its digits spell, modelled exactly when a double holds it; a literal with a nonzero fraction is a double only when it has at most 15 significant digits and at most 300 leading zeros, so that the double is neither an integer nor zero; every other literal is not modelled |
| Values.DoubleLiteralCases | src/lib/parser.ts:331 | `1.5` is a double and `2.0` the integer 2 |
| Values.DoubleLiteralNearInteger | src/lib/parser.ts:331 | `1.00000000000000000001`, which `parseFloat` rounds to 1, is not modelled rather than kept as a double |
| Values.DoubleLiteralUnderflow | src/lib/parser.ts:331 | a literal with 400 zeros after the dot, which `parseFloat` rounds to 0, is not modelled rather than kept as a double |
| Values.DotIndex | src/lib/parser.ts:331 | the index of the first `.` in a literal |
| Values.TruncDivRoundsTowardZero | src/lib/interpreter.ts:132-136 | `Math.trunc(a / b)` with its remainder rebuilds a, the remainder is smaller than b and has the sign of a, and the quotient is odd in a |
| Values.TruncDivDiffersFromEuclidean | src/lib/interpreter.ts:132-136 | -7 / 2 is -3 in the source, where Euclidean division gives -4 |
| Values.Truthy | src/lib/interpreter.ts:100-152 | 0, "", false, null and undefined are falsy; other numbers (doubles are never zero), strings and all objects are truthy |
| Values.ToJsString | src/lib/system.ts:8 | `String(x)` of a string is itself, of an integer up to 2^53 its decimal form, of an object `[object Object]`; it fails exactly for a double or a larger integer |
| Values.ToInteger | src/lib/interpreter.ts:129-131 | integers up to 2^53, booleans and null convert to numbers, exactly those, and the number is within 2^53 |
| Values.IntegerNumber | src/lib/interpreter.ts:129-131 | an integer result is a number exactly when a double holds it without rounding |
| Values.JsAdd | src/lib/interpreter.ts:129 | `+` adds two integers when operands and sum are within 2^53 and is outside the model otherwise, concatenates two strings, and always gives a string or an exact number |
| Values.JsSub | src/lib/interpreter.ts:130 | `-` subtracts two integers when operands and difference are within 2^53, is outside the model when one is not, and gives an exact number |
| Values.JsMul | src/lib/interpreter.ts:131 | `*` multiplies two integers when operands and product are within 2^53, is outside the model when one is not, and gives an exact number |
| Values.JsDiv | src/lib/interpreter.ts:132-137 | `/` of two integers within 2^53 truncates toward zero; division by zero (an Infinity or NaN) is not modelled |
| Values.JsRem | src/lib/expressions.ts:17 | `%` of two integers within 2^53 has the sign of the dividend |
| Values.JsNegate | src/lib/interpreter.ts:160 | unary `-` negates an integer within 2^53 |
| Values.JsCompare | src/lib/interpreter.ts:138-141 | the relational operators compare integers within 2^53 as numbers, always give a boolean, and are false against undefined |
| Values.StrictEquals | src/lib/interpreter.ts:142-143 | `===` holds exactly when the two values are the same value (a double, never an integer, differs from every int); two doubles are not compared |
| Environments.Names | src/lib/environment.ts:3 | the names of a scope, in insertion order |
| Environments.IndexOf | src/lib/environment.ts:27 | the first binding with the name |
| Environments.Set | src/lib/environment.ts:11-17 | `Map.set` replaces an existing name in place or appends a new one, and the name then reads the value |
| Environments.SetOther | src/lib/environment.ts:11-17 | setting one name leaves every other name's value unchanged |
| Environments.NewScope | src/lib/environment.ts:4-7 | a new scope is empty, has the given parent, and keeps the scope tree well formed |
| Environments.Chain | src/lib/environment.ts:26-30 | the parent chain starts at the scope and only visits older scopes |
| Environments.Resolve | src/lib/environment.ts:26-30 | resolving finds a scope on the chain that binds the name, or fails with `Variable "x" not found.` |
| Environments.Lookup | src/lib/environment.ts:21-24 | lookup succeeds exactly when resolve does, and reads the value in the resolved scope |
| Environments.Declare | src/lib/environment.ts:9-13 | declaring fails with `has already been declared` exactly when the scope binds the name; otherwise it appends the binding and changes nothing else |
| Environments.Assign | src/lib/environment.ts:15-19 | assigning fails exactly when resolve does, and otherwise updates only the resolved scope |
| Environments.Snapshot | src/lib/environment.ts:32-36 | a snapshot holds exactly the scope's own names |
| Environments.ResolveSameShape | src/lib/environment.ts:26-30 | resolution depends only on parents and names, not on values |
| Environments.ResolveNearest | src/lib/environment.ts:26-30 | resolve finds the nearest scope on the chain binding the name, and fails exactly when no scope on the chain binds it |
| Environments.LookupAfterDeclare | src/lib/environment.ts:9-24 | a declared name reads back its value in the same scope |
| Environments.Shadowing | src/lib/environment.ts:9-30 | declaring in an inner scope shadows the outer binding without changing what the parent scope sees |
| Environments.ResolveUnaffected | src/lib/environment.ts:26-30 | changing a younger scope does not change what an older scope resolves or reads |
| Environments.AssignThenLookup | src/lib/environment.ts:15-24 | after an assignment the name reads the new value and every other name reads as before, from any scope |
| Environments.SameShapeAfterAssign | src/lib/environment.ts:15-19 | assignment keeps every scope's parent and names |
| Console.NoBackslashUnchanged | src/lib/utils.ts:1-8 | text without a backslash is left as it is |
| Console.EscapesNeverLengthen | src/lib/utils.ts:1-8 | unescaping never makes the text longer |
| Console.SingleEscape | src/lib/utils.ts:1-8 | a backslash and a known letter become the one control character; an unknown pair is kept |
| Console.DoubledBackslashBeforeN | src/lib/utils.ts:2-6 | because `\n` is replaced before `\\`, the text `\\n` becomes a backslash and a line feed |
| Console.FormatPlain | src/lib/system.ts:15-17 | a format without `%` is printed as it is |
| Console.FormatNext | src/lib/system.ts:15-17 | each `%s`/`%d` takes the next argument's string form |
| Console.FormatExhausted | src/lib/system.ts:16 | a conversion with no argument left prints nothing |
| Console.FormatKeepsOtherPercent | src/lib/system.ts:15 | the modern printf leaves `%f` untouched |
| Console.SystemOut | src/lib/system.ts:4-20 | println with no argument prints a line feed, print prints nothing, printf with no argument and unknown methods give no output, and println/print of one value print at most its unescaped text and a line feed |
| Console.InterpreterOutput | src/lib/interpreter.ts:236-249 | the interpreter's inline printing: println always ends in a line feed, print and printf with no argument give no output |
| Expressions.ExprBinaryOp | src/lib/expressions.ts:10-25 | the result is `Unknown operator: op` exactly when op is none of the eleven operators the switch handles |
| Expressions.EvalArgs | src/lib/expressions.ts:44 | evaluating the arguments gives one value per argument |
| Expressions.SharedOperatorsAgree | src/lib/expressions.ts:10-25 | on every operator both evaluators handle, evalBinaryExpr and the Interpreter class compute the same result |
| Expressions.RemainderDiffers | src/lib/expressions.ts:17 | evalBinaryExpr computes `%` with the dividend's sign (-7 % 2 is -1), where the Interpreter class, which has no `%` case, gives undefined |
| Expressions.UnknownOperatorAfterOperands | src/lib/expressions.ts:8-24 | an unknown operator fails only after both operands were evaluated |
| Expressions.OtherCallsDoNothing | src/lib/expressions.ts:34-46 | a call that is not `System.out.x(...)` evaluates to undefined and changes nothing |
| Expressions.PrintlnGivesLine | src/lib/expressions.ts:34-44 | `System.out.println(x)` returns the unescaped text of x and a line feed; a non-name method gives null |
| Expressions.ArgsInOrder | src/lib/expressions.ts:44 | arguments are evaluated left to right, each seeing the scopes the previous one left |
| Statements.EvalBlockStatement | src/lib/statements.ts:7-19 | the loop over the statements gives the Block specification |
| Statements.While | src/lib/statements.ts:46-55 | a while statement evaluates to undefined |
| Statements.EvalWhileStatement | src/lib/statements.ts:46-55 | the loop gives the While specification |
| Statements.Optional | src/lib/statements.ts:36-37 | a missing init or test takes its default and changes nothing |
| Statements.ForLoop | src/lib/statements.ts:37-42 | the for loop's iterations evaluate to undefined |
| Statements.For | src/lib/statements.ts:32-44 | a for statement runs in a fresh child scope and evaluates to undefined |
| Statements.EvalForStatement | src/lib/statements.ts:32-44 | the method gives the For specification |
| Statements.ForIterations | src/lib/statements.ts:37-42 | the loop gives the ForLoop specification |
| Statements.BlockStopsAtSentinel | src/lib/statements.ts:16 | a break, continue or return ends the block with that value, whatever follows it |
| Statements.BlockRunsInSequence | src/lib/statements.ts:14-17 | a block's statements run in order, and a sentinel in the first part skips the rest |
| Statements.BlockUsesFreshChild | src/lib/statements.ts:12-18 | an empty block gives undefined after adding one child scope; a sentinel from the first statement is the block's result |
| Statements.IfTakesOneBranch | src/lib/statements.ts:21-30 | a truthy test ignores the alternate, a falsy test ignores the consequent, and a falsy test with no alternate gives undefined |
| Statements.WhileFuelSuffices | src/lib/statements.ts:49-53 | once the loop finishes within some bound, any larger bound gives the same result |
| Statements.ForFuelSuffices | src/lib/statements.ts:37-42 | once the for loop finishes within some bound, any larger bound gives the same result |
| Statements.WhileStopsOnBreakOrReturn | src/lib/statements.ts:51 | a break or return from the body ends the while loop with undefined |
| Statements.WhileContinueRetests | src/lib/statements.ts:52 | a continue from the body goes back to the test |
| Statements.ForContinueRunsUpdate | src/lib/statements.ts:40 | a continue from the body still runs the update before the next test |
| Statements.ForWithoutTestNeverStopsOnItsOwn | src/lib/statements.ts:37 | a for loop without a test keeps iterating until the body breaks, returns or fails |
| Validation.FinalCheck | src/lib/validate.ts:32-39 | the final check passes exactly when both counts are zero, and reports the last line otherwise |
| Validation.CheckBalance | src/lib/validate.ts:3-40 | the loop returns exactly what the ValidateBalance specification gives |
| Validation.CountLine | src/lib/validate.ts:15-20 | the character loop computes the net brace and parenthesis counts of the line |
| Validation.BlankIsAccepted | src/lib/validate.ts:4 | blank code is accepted without looking at it |
| Validation.ReportedLineExists | src/lib/validate.ts:23-37 | a reported line number is a line of the code |
| Validation.IgnoresLinesAfterEmpty | src/lib/validate.ts:13 | the scan stops at the first empty line: what follows it does not change the verdict |
| Validation.LinesNetStep | src/lib/validate.ts:11-20 | the running counts after n+1 lines are the counts after n lines plus that line's |
| Validation.ScanAcceptsBalanced | src/lib/validate.ts:11-38 | without empty lines the scan accepts exactly when no prefix closes more than it opened and both totals are zero |
| Validation.ValidateAcceptsBalanced | src/lib/validate.ts:3-40 | without empty lines, code is accepted exactly when it is blank, or no line prefix closes more than it opened and the numbers of `{`/`}` and `(`/`)` are equal |
| Interpreter.AddTrace | src/lib/interpreter.ts:37-46 | recording fails with `Execution step limit reached (25000).` exactly when more than 25000 steps are already recorded; otherwise it appends one step with the current scope's snapshot, the heap and the call stack, and changes nothing else |
| Interpreter.Enter | src/lib/interpreter.ts:52-84 | entering a block makes a new empty scope, child of the current one, and changes nothing else |
| Interpreter.Leave | src/lib/interpreter.ts:60-95 | leaving a block makes the parent scope current again and changes nothing else |
| Interpreter.EntryOf | src/lib/interpreter.ts:178-215 | a heap entry is found only through a reference to it; the modern `?.` reads nothing where the legacy `.` throws |
| Interpreter.WriteElement | src/lib/interpreter.ts:174-181 | an element store never adds or removes heap entries |
| Interpreter.EvalNew | src/lib/interpreter.ts:184-190 | `new C()` returns a reference to the next heap id and advances the counter by one |
| Interpreter.EvalPostfix | src/lib/interpreter.ts:289-297 | `x++`/`x--` keeps the interpreter state valid and only extends the trace |
| Interpreter.Bump | src/lib/interpreter.ts:293-294 | the increment writes back through assign and keeps the scope tree's shape |
| Interpreter.InstanceClass | src/lib/interpreter.ts:266-267 | a method can be called exactly on a heap object |
| Interpreter.DeclareParams | src/lib/interpreter.ts:273-275 | the parameters are declared in the activation record and no other scope changes |
| Interpreter.EvalExpr | src/lib/interpreter.ts:48-301 | every expression that evaluates normally keeps the state valid: the current scope and call stack come back, scopes are only added, only the current scope gains names, the trace only grows and heap ids are never reused |
| Interpreter.EvalBinary | src/lib/interpreter.ts:123-146 | a binary expression keeps the state valid and only extends the trace |
| Interpreter.ApplyBinary | src/lib/interpreter.ts:127-145 | applying an operator records one step and keeps the state valid |
| Interpreter.EvalLogical | src/lib/interpreter.ts:147-154 | `&&`/`||` keep the state valid and only extend the trace |
| Interpreter.EvalUnary | src/lib/interpreter.ts:155-162 | `!`/`-` keep the state valid and only extend the trace |
| Interpreter.EvalAssignment | src/lib/interpreter.ts:168-183 | an assignment keeps the state valid and only extends the trace |
| Interpreter.AssignTo | src/lib/interpreter.ts:172-182 | storing into a name or an array element keeps the state valid |
| Interpreter.EvalMember | src/lib/interpreter.ts:206-220 | `a[i]` and `a.length` keep the state valid |
| Interpreter.EvalArgs | src/lib/interpreter.ts:223 | the arguments give one value each, evaluated left to right, and keep the state valid |
| Interpreter.EvalCall | src/lib/interpreter.ts:221-288 | a call keeps the state valid and only extends the trace |
| Interpreter.CallMethod | src/lib/interpreter.ts:264-288 | a user method call keeps the state valid |
| Interpreter.Invoke | src/lib/interpreter.ts:277-287 | after a call the caller's scope and call stack are back |
| Interpreter.Activate | src/lib/interpreter.ts:272-279 | the activation record is a new scope whose parent is the global scope, every older scope is kept, and one frame is pushed on the call stack |
| Interpreter.EvalArrayCreation | src/lib/interpreter.ts:191-205 | an array creation returns a reference to the next heap id and keeps the state valid |
| Interpreter.ArrayElements | src/lib/interpreter.ts:199-201 | the elements come from the literal's values or from the default value times the size |
| Interpreter.EvalStmt | src/lib/interpreter.ts:48-121 | every statement that runs normally keeps the state valid and only extends the trace |
| Interpreter.EvalBlock | src/lib/interpreter.ts:51-62 | a block keeps the state valid and adds no name to any scope that existed before it |
| Interpreter.EvalStmts | src/lib/interpreter.ts:54-59 | the statement loop keeps the state valid |
| Interpreter.EvalOptional | src/lib/interpreter.ts:66-86 | a missing expression takes its default and changes nothing |
| Interpreter.EvalVarDecl | src/lib/interpreter.ts:63-72 | a declaration keeps the state valid |
| Interpreter.EvalReturn | src/lib/interpreter.ts:74-79 | a return keeps the state valid |
| Interpreter.EvalIf | src/lib/interpreter.ts:116-121 | an if statement keeps the state valid |
| Interpreter.EvalFor | src/lib/interpreter.ts:82-97 | a for statement keeps the state valid |
| Interpreter.EvalInit | src/lib/interpreter.ts:85 | the for initializer keeps the state valid |
| Interpreter.ForLoop | src/lib/interpreter.ts:86-94 | the for iterations keep the state valid |
| Interpreter.ForBody | src/lib/interpreter.ts:87-93 | one for iteration keeps the state valid |
| Interpreter.EvalWhile | src/lib/interpreter.ts:98-106 | a while statement keeps the state valid and gives undefined |
| Interpreter.EvalDoWhile | src/lib/interpreter.ts:107-115 | a do-while statement keeps the state valid and gives undefined |
| Interpreter.DeclareClasses | src/lib/interpreter.ts:17-25 | declaring the classes keeps the global scope tree well formed |
| Interpreter.Initial | src/lib/interpreter.ts:9-30 | the state run starts from is valid |
| InterpreterFacts.IntegerDivisionRoundsTowardZero | src/lib/interpreter.ts:132-136 | integer `/` records one step and gives a quotient whose remainder is smaller than the divisor and has the dividend's sign |
| InterpreterFacts.UnlistedOperatorsAreUndefined | src/lib/interpreter.ts:128-145 | an operator missing from the switch, `%` included, gives undefined |
| InterpreterFacts.EqualityIsStrict | src/lib/interpreter.ts:142-143 | `==` and `!=` are JavaScript's strict equality, so `1 == "1"` is false |
| InterpreterFacts.AndShortCircuits | src/lib/interpreter.ts:150-151 | a falsy left side of `&&` gives false, records one step and never looks at the right side |
| InterpreterFacts.OrShortCircuits | src/lib/interpreter.ts:150-152 | a truthy left side of `\|\|` gives true, records one step and never looks at the right side |
| InterpreterFacts.DeclarationRecordedBeforeBinding | src/lib/interpreter.ts:70-71 | the step of a declaration is recorded before the name is bound, and the name then reads the declared value |
| InterpreterFacts.AssignmentRecordedBeforeStore | src/lib/interpreter.ts:170-173 | the step of an assignment shows the scope before the store, and the name then reads the assigned value |
| InterpreterFacts.PostfixGivesOldValue | src/lib/interpreter.ts:289-297 | `x++` returns the old value, stores the old value plus one, and its step shows the new value |
| InterpreterFacts.BlockStopsAtSentinel | src/lib/interpreter.ts:56-58 | a break, continue or return ends the block, whatever follows it |
| InterpreterFacts.BlockRunsInSequence | src/lib/interpreter.ts:54-59 | a block's statements run in order, and a sentinel in the first part skips the rest |
| InterpreterFacts.BlockScopeIsDiscarded | src/lib/interpreter.ts:51-62 | after a block the current scope is back and every name resolves as before |
| InterpreterFacts.LoopsGiveUndefined | src/lib/interpreter.ts:96-114 | for, while and do-while statements evaluate to undefined |
| InterpreterFacts.WhileStopsOnBreakOrReturn | src/lib/interpreter.ts:100-102 | a break or return from the body ends the while loop with undefined |
| InterpreterFacts.ContinueRunsUpdate | src/lib/interpreter.ts:89-92 | a continue from a for body still runs the update before the next test |
| InterpreterFacts.DoWhileContinueTests | src/lib/interpreter.ts:109-113 | a continue from a do-while body still evaluates the test, and a falsy test ends the loop |
| InterpreterFacts.NewAllocatesFreshObject | src/lib/interpreter.ts:184-190 | `new C()` stores an empty object of class C under an unused id, records an allocation step and changes no other heap entry |
| InterpreterFacts.NewArrayHasDefaults | src/lib/interpreter.ts:191-205 | `new T[n]` stores n default values of T under an unused id and records an allocation step |
| InterpreterFacts.ActivationRecordIsChildOfGlobal | src/lib/interpreter.ts:272-279 | a method body runs in a child of the global scope, so it cannot see the caller's locals, with one frame pushed |
| InterpreterFacts.ReturnedValueIsUnwrapped | src/lib/interpreter.ts:281-287 | a return inside a method gives its value to the caller, with the caller's scope and call stack restored |
| InterpreterFacts.CallOnNonObjectThrows | src/lib/interpreter.ts:265-267 | calling a method on an array or a number fails with `Cannot call method on non-object.` (the legacy interpreter throws a TypeError on a number) and on null with a TypeError |
| InterpreterFacts.MissingEntryDialects | src/lib/interpreter.ts:211-216 | indexing or taking the length of a non-reference gives undefined in the modern interpreter and a TypeError in the legacy one |
| InterpreterFacts.StepLimitStopsBreak | src/lib/interpreter.ts:38-80 | past the limit, even a break fails with the step-limit error |
| InterpreterFacts.ConsoleStepIgnoresLimit | src/lib/interpreter.ts:251-259 | a println pushes its step directly, with the unescaped text and a line feed, without the step-limit check |
| InterpreterFacts.MethodTableLastWins | src/lib/interpreter.ts:19-22 | of two methods with the same name, the later one wins |
| InterpreterFacts.RunNeedsMainClass | src/lib/interpreter.ts:27 | a program without classes fails with `Variable "Main" not found.` |
| InterpreterFacts.RunNeedsMainMethod | src/lib/interpreter.ts:27-28 | a Main class without methods fails with `Main.main method not found.` |
| InterpreterFacts.MethodTableSkipsOthers | src/lib/interpreter.ts:20-22 | members that are not methods do not enter the method table |
| Service.DiagnosticOf | services/javaInterpreter.ts:922-925 | a ParseError keeps its line and message; any other error is reported on line 1 with its message |
| Service.ValidationMatchesCompile | services/javaInterpreter.ts:916-928 | code is accepted exactly when it is blank or tokenizes and parses, and a failure is reported as the diagnostic of the compile error |
| Service.ParseErrorKeepsLine | services/javaInterpreter.ts:922 | a parse error is reported at the line and with the message it carries |
| Service.InterpretationHasSteps | services/javaInterpreter.ts:931-954 | a successful interpretation of non-blank code yields a non-empty trace, exactly the legacy interpreter's run of the parsed program |
| Service.CompileErrorsAgree | services/javaInterpreter.ts:916-954 | when non-blank code does not compile, interpretation is rejected with that very error and validation reports it |
| Service.EmptyTraceRejected | services/javaInterpreter.ts:941-944 | a run of non-blank code that records no step is rejected with the `Interpretation failed` message |
| TraceDiff.Field | src/hooks/useChangedVariables.ts:18-20 | a variable is present exactly when the step binds its name |
| TraceDiff.PassingMembers | src/hooks/useChangedVariables.ts:17-32 | the loop's collected keys are exactly the keys read so far that pass the test |
| TraceDiff.ComputeChangedVariables | src/hooks/useChangedVariables.ts:4-35 | the loops compute exactly the ChangedVariables specification |
| TraceDiff.CollectKeys | src/hooks/useChangedVariables.ts:9 | collects exactly the names of the step |
| TraceDiff.CollectPassing | src/hooks/useChangedVariables.ts:17-32 | collects exactly the names that pass the test |
| TraceDiff.MarkedWhenChanged | src/hooks/useChangedVariables.ts:17-32 | a name is marked exactly when the current step binds it and it is new, its value changed, or it refers to a heap entry that is new or changed |
| TraceDiff.FirstStepMarksAll | src/hooks/useChangedVariables.ts:7-11 | without a previous step every current name is marked; without a current step nothing is |
| TraceDiff.OnlyCurrentKeys | src/hooks/useChangedVariables.ts:17-24 | only names of the current step are ever marked |
| TraceDiff.SameStepMarksNothing | src/hooks/useChangedVariables.ts:17-32 | comparing a step with itself marks nothing, when its references point into its heap |
| TraceDiff.ComputeChangedHeapIds | src/hooks/useChangedHeapIds.ts:4-20 | the loop computes exactly the ChangedHeapIds specification |
| TraceDiff.HeapMarksExactlyChanged | src/hooks/useChangedHeapIds.ts:14-18 | a heap id is marked exactly when the current heap has it and it is new or its entry changed |
| TraceDiff.StoreMarksOneId | src/hooks/useChangedHeapIds.ts:14-18 | after storing one entry, exactly that id is marked, or none if the entry was already equal |
| FileManager.SplitJoined | src/hooks/useFileManager.ts:30-42 | splitting the joined code into lines gives every segment's lines in order, with one empty line between segments |
| FileManager.FirstMain | src/hooks/useFileManager.ts:17 | the main file found is a main file of the list, and none is found only when no file is main |
| FileManager.NonMain | src/hooks/useFileManager.ts:19 | the filter keeps only files of the list that are not main |
| FileManager.Parts | src/hooks/useFileManager.ts:26-30 | one trimmed part per file, in order |
| FileManager.PartsTrimmed | src/hooks/useFileManager.ts:27 | every part holds its file's trimmed content |
| FileManager.PartAt | src/hooks/useFileManager.ts:27-30 | part i is file i with its trimmed content and that content's lines |
| FileManager.BlocksAreSplitTexts | src/hooks/useFileManager.ts:30 | each part's lines are its text split at line feeds |
| FileManager.LayoutLength | src/hooks/useFileManager.ts:28-35 | there is one map entry per non-empty segment |
| FileManager.LayoutEntry | src/hooks/useFileManager.ts:31-34 | each entry covers exactly its segment's line count, starting no earlier than the running line |
| FileManager.LayoutOrdered | src/hooks/useFileManager.ts:37-38 | each entry ends before the next one starts |
| FileManager.LayoutDisjoint | src/hooks/useFileManager.ts:31-38 | no line is covered by two entries |
| FileManager.LayoutLines | src/hooks/useFileManager.ts:31-42 | with the one-line gap of the `\n\n` separator, a mapped line of the combined code is the matching line of its segment |
| FileManager.ResolveFindsEntry | src/hooks/useFileManager.ts:102-108 | a line inside an entry resolves to that entry's file, at the 1-based offset into it |
| FileManager.LayoutIsFaithful | src/hooks/useFileManager.ts:26-108 | with the corrected gap, a mapped line resolves to its file, and the combined code at that line is the file's line at the resolved position |
| FileManager.LineMapIsFaithful | src/hooks/useFileManager.ts:16-116 | for the corrected combination, every mapped line resolves to a file whose trimmed content holds, at the resolved line, exactly the combined code's line |
| FileManager.AsWrittenMapsSecondFileLate | src/hooks/useFileManager.ts:37-42 | as written, files `A` and `B` combine to the lines `A`, ``, `B` but `B` is mapped to line 3, and line 2 falls back to the first file |
| FileManager.MainFileFirst | src/hooks/useFileManager.ts:17-20 | a main file with content comes first in the combination, starting at line 0 |
| FileManager.SkipStep | src/hooks/useFileManager.ts:28 | an empty file adds neither a segment nor a map entry |
| FileManager.AddStep | src/hooks/useFileManager.ts:31-38 | a non-empty file adds its segment and its entry, and moves the running line past it and the gap |
| FileManager.UnmappedLineFallsBack | src/hooks/useFileManager.ts:111-115 | a line outside every entry resolves to the fallback file, at the line plus one |
| FileManager.FindById | src/hooks/useFileManager.ts:14 | the file found carries the id, and none is found only when no file has it |
| FileManager.WithoutId | src/hooks/useFileManager.ts:60 | the filter removes exactly the files with the id and keeps the others |
| FileManager.RemoveKeepsAFile | src/hooks/useFileManager.ts:58-73 | removing never empties the list, removes the id unless it was the only file, and leaves the active id naming a file whenever it named one before |
| FileManager.UpdatesTouchOnlyTarget | src/hooks/useFileManager.ts:75-85 | a content update or a rename changes only the file with the id, and a renamed file always ends in `.java`, added only when missing |
| FileManager.SetMainMarksOnlyTarget | src/hooks/useFileManager.ts:87-92 | after setMainFile exactly the file with the id is main and nothing else changes |
| FileManager.AddedFileBecomesActive | src/hooks/useFileManager.ts:47-56 | the new file is found under its id and its name ends in `.java` unless only the trimmed name did |
| FileManager.FindAfterAppend | src/hooks/useFileManager.ts:14-54 | an appended file with a new id is found under that id |
| FileManager.Manager.constructor | src/hooks/useFileManager.ts:10-12 | the list holds the initial file and it is active |
| FileManager.Manager.ActiveFile | src/hooks/useFileManager.ts:14 | the active file is a file of the list, the one with the active id when there is one |
| FileManager.Manager.AddFile | src/hooks/useFileManager.ts:47-56 | the new file is appended and becomes active |
| FileManager.Manager.RemoveFile | src/hooks/useFileManager.ts:58-73 | the list and active id become those of Removed, and the list stays non-empty |
| FileManager.Manager.UpdateFileContent | src/hooks/useFileManager.ts:75-79 | the list becomes WithContent and the active id is kept |
| FileManager.Manager.RenameFile | src/hooks/useFileManager.ts:81-85 | the list becomes Renamed and the active id is kept |
| FileManager.Manager.SetMainFile | src/hooks/useFileManager.ts:87-92 | the list becomes WithMain and the active id is kept |
| FileManager.Manager.SetActiveFileId | src/hooks/useFileManager.ts:12 | only the active id changes |
| FileManager.Manager.GetCombinedCodeWithMap | src/hooks/useFileManager.ts:16-45 | the loop computes exactly the combination as the hook writes it, with each file mapped two lines after the previous one, and the same code as the corrected combination |
| FileManager.Manager.GetCombinedCode | src/hooks/useFileManager.ts:95-97 | the combined code, which the map's gap does not affect |
| FileManager.Manager.ResolveLineToFile | src/hooks/useFileManager.ts:99-116 | the loop returns what ResolveIn gives on the hook's line map, falling back to the first file |
| CodeRunner.IndexFrom | java-runner/src/main/java/com/javavis/CodeRunner.java:219-295 | `indexOf` from a position: the first occurrence at or after it, or -1 when there is none |
| CodeRunner.LastIndexBelow | java-runner/src/main/java/com/javavis/CodeRunner.java:296 | `lastIndexOf` below a bound: the last occurrence, or -1 when there is none |
| CodeRunner.IndexOfIs | java-runner/src/main/java/com/javavis/CodeRunner.java:219-257 | `indexOf` returns the first position of the character |
| CodeRunner.TrimmedIsFixed | java-runner/src/main/java/com/javavis/CodeRunner.java:223-268 | `trim` leaves a string without surrounding control characters or spaces unchanged |
| CodeRunner.TrimDropsSpace | java-runner/src/main/java/com/javavis/CodeRunner.java:223-268 | `trim` removes a trailing space |
| CodeRunner.TrimKeepsOut | java-runner/src/main/java/com/javavis/CodeRunner.java:223-268 | `trim` never introduces a character |
| CodeRunner.LastWordAfterBreak | java-runner/src/main/java/com/javavis/CodeRunner.java:277-279 | the last piece of `split("\\s+")` is the word after the last whitespace |
| CodeRunner.VariableNameFacts | java-runner/src/main/java/com/javavis/CodeRunner.java:256-288 | a line without `=` or whose first `=` belongs to `==`, `!=`, `<=` or `>=` names no variable, and a name returned always matches `[a-zA-Z_][a-zA-Z0-9_]*` |
| CodeRunner.IdentifierHasNoSpace | java-runner/src/main/java/com/javavis/CodeRunner.java:245-282 | a name matching the identifier pattern has no space, `=`, bracket or parenthesis |
| CodeRunner.NameFromLeftSide | java-runner/src/main/java/com/javavis/CodeRunner.java:268-287 | the name is the last word of the trimmed left side without a trailing compound operator, when it is an identifier |
| CodeRunner.IdentifierIsLastWord | java-runner/src/main/java/com/javavis/CodeRunner.java:271-279 | an identifier is its own last word and has no operator to drop |
| CodeRunner.DeclarationNamesVariable | java-runner/src/main/java/com/javavis/CodeRunner.java:253-254 | `T x = ...` names x |
| CodeRunner.AssignmentNamesVariable | java-runner/src/main/java/com/javavis/CodeRunner.java:253-254 | `x = ...` names x |
| CodeRunner.CompoundAssignmentNamesVariable | java-runner/src/main/java/com/javavis/CodeRunner.java:270-274 | `x += ...` (and `-=`, `*=`, `/=`) names x |
| CodeRunner.DeclarationExample | java-runner/src/main/java/com/javavis/CodeRunner.java:254 | `int x = 5` names x |
| CodeRunner.CloseBracketFrom | java-runner/src/main/java/com/javavis/CodeRunner.java:234-239 | the lazy `\\[.*?\\]` ends at the first `]` after the opening bracket |
| CodeRunner.RemoveBracketed | java-runner/src/main/java/com/javavis/CodeRunner.java:234-239 | removing `T[...]` changes nothing in text without a bracket |
| CodeRunner.WordFrom | java-runner/src/main/java/com/javavis/CodeRunner.java:242 | a matched type word lies inside the text |
| CodeRunner.TypeWordAt | java-runner/src/main/java/com/javavis/CodeRunner.java:242 | a matched whole type word lies inside the text |
| CodeRunner.ArrayNameFacts | java-runner/src/main/java/com/javavis/CodeRunner.java:217-250 | a line whose first `[` is missing or at position 0 names no array, and a name returned always matches the identifier pattern |
| CodeRunner.ArrayTypesNeedBracket | java-runner/src/main/java/com/javavis/CodeRunner.java:234-239 | the array-type removals leave trimmed text without a bracket unchanged |
| CodeRunner.NoTypeWordKeeps | java-runner/src/main/java/com/javavis/CodeRunner.java:242 | text with no whole type word is left unchanged |
| CodeRunner.TypeWordsAreIdentifiers | java-runner/src/main/java/com/javavis/CodeRunner.java:242 | every type word matches the identifier pattern |
| CodeRunner.NotIdentifier | java-runner/src/main/java/com/javavis/CodeRunner.java:245 | a non-word character after the first makes the text no identifier |
| CodeRunner.MatchedChar | java-runner/src/main/java/com/javavis/CodeRunner.java:242 | a match of a word at a position spells the word there |
| CodeRunner.NoWordAtNonWordChar | java-runner/src/main/java/com/javavis/CodeRunner.java:242 | no type word starts at a non-word character |
| CodeRunner.WholeWordOnly | java-runner/src/main/java/com/javavis/CodeRunner.java:242 | the `\b` anchors only match whole words, so a longer name is not cut |
| CodeRunner.NoTypeWordAfterName | java-runner/src/main/java/com/javavis/CodeRunner.java:242 | a name that is not a type word, followed by non-word characters, contains no type word |
| CodeRunner.ElementAssignmentNamesArray | java-runner/src/main/java/com/javavis/CodeRunner.java:213-214 | `a[...` names the array a |
| CodeRunner.CompoundReadNamesNoArray | java-runner/src/main/java/com/javavis/CodeRunner.java:215-231 | `t += a[...` names no array: the part left of `=` is `t +`, which is no identifier (the doc comment promises a) |
| CodeRunner.LeftOfCompoundIsNoName | java-runner/src/main/java/com/javavis/CodeRunner.java:227-249 | `t +` cleans to no name |
| CodeRunner.CompoundLeftShape | java-runner/src/main/java/com/javavis/CodeRunner.java:227 | the left side of a compound assignment is `t`, a space and the operator |
| CodeRunner.CutAtEquals | java-runner/src/main/java/com/javavis/CodeRunner.java:223-228 | the text before the bracket is cut at the first `=` |
| CodeRunner.CompoundReadExample | java-runner/src/main/java/com/javavis/CodeRunner.java:215 | `suma += numeros[i]` names no array |
| CodeRunner.ElementAssignmentExample | java-runner/src/main/java/com/javavis/CodeRunner.java:214 | `numeros[0] = 10` names numeros |
| CodeRunner.SkipSpaces | java-runner/src/main/java/com/javavis/CodeRunner.java:307 | `\\s+` stops at the first non-space |
| CodeRunner.WordEnd | java-runner/src/main/java/com/javavis/CodeRunner.java:307 | the name group ends at the first non-word character |
| CodeRunner.DeclarationWith | java-runner/src/main/java/com/javavis/CodeRunner.java:307 | a declaration match captures an identifier after the type word |
| CodeRunner.DeclarationAt | java-runner/src/main/java/com/javavis/CodeRunner.java:307 | a match at a position captures an identifier |
| CodeRunner.FindDeclaration | java-runner/src/main/java/com/javavis/CodeRunner.java:309-311 | `find` returns the next match, capturing an identifier |
| CodeRunner.DeclaredNames | java-runner/src/main/java/com/javavis/CodeRunner.java:311-313 | every name collected is an identifier |
| CodeRunner.ForVariablesAreIdentifiers | java-runner/src/main/java/com/javavis/CodeRunner.java:294-316 | every for variable returned is an identifier |
| CodeRunner.ExtractForVariables | java-runner/src/main/java/com/javavis/CodeRunner.java:294-316 | the matcher loop returns exactly the ForVariables specification |
| CodeRunner.HeaderNames | java-runner/src/main/java/com/javavis/CodeRunner.java:295-302 | the names are those declared between the first `(` and the last `)` |
| CodeRunner.NoDeclarationWithoutWords | java-runner/src/main/java/com/javavis/CodeRunner.java:307 | text without two adjacent word characters declares nothing |
| CodeRunner.NoDeclarationAtNonWordChar | java-runner/src/main/java/com/javavis/CodeRunner.java:307 | no declaration starts at a non-word character |
| CodeRunner.ShortWordDeclaresNothing | java-runner/src/main/java/com/javavis/CodeRunner.java:307 | a one-character word is no type word |
| CodeRunner.CounterDeclared | java-runner/src/main/java/com/javavis/CodeRunner.java:292 | `for (int i ...)` gives exactly the counter i |
| CodeRunner.CounterNames | java-runner/src/main/java/com/javavis/CodeRunner.java:307-313 | `int i` followed by text without words declares exactly i |
| CodeRunner.IntDeclarationAt | java-runner/src/main/java/com/javavis/CodeRunner.java:307 | `int name` at the start is matched with the name right after `int ` |
| CodeRunner.WordRunEnds | java-runner/src/main/java/com/javavis/CodeRunner.java:307 | a run of word characters ends where the run ends |
| CodeRunner.ClosingBeforeOpening | java-runner/src/main/java/com/javavis/CodeRunner.java:295-302 | a last `)` before the first `(` makes `substring` throw StringIndexOutOfBoundsException |
| Instrument.GetIndentation | java-runner/src/main/java/com/javavis/CodeRunner.java:318-330 | the loop returns one space per leading space and four per leading tab, up to the first other character |
| Instrument.IndentWidthCountsBlanks | java-runner/src/main/java/com/javavis/CodeRunner.java:318-330 | the width counts the spaces of the leading blanks plus four per tab in them |
| Instrument.IndentOfSpaces | java-runner/src/main/java/com/javavis/CodeRunner.java:318-330 | a line starting with n spaces has n more columns than the rest |
| Instrument.IndentationKeepsWidth | java-runner/src/main/java/com/javavis/CodeRunner.java:143-156 | injected text indented with a line's indentation has that line's width |
| Instrument.BraceDeltaAppend | java-runner/src/main/java/com/javavis/CodeRunner.java:111-114 | the brace balance of two pieces is the sum of theirs |
| Instrument.CountBraces | java-runner/src/main/java/com/javavis/CodeRunner.java:111-139 | the character loop adds the line's brace balance to the depth |
| Instrument.PublicMainIsMain | java-runner/src/main/java/com/javavis/CodeRunner.java:108-132 | the two-part test is the same as looking for `static void main` |
| Instrument.InMainStays | java-runner/src/main/java/com/javavis/CodeRunner.java:108-134 | once a line mentions main, every later line is in main |
| Instrument.DepthIsBalance | java-runner/src/main/java/com/javavis/CodeRunner.java:111-139 | the depth after n lines is the brace balance of their trimmed text |
| Instrument.MainClosingFrom | java-runner/src/main/java/com/javavis/CodeRunner.java:106-120 | the first pass finds the first line that closes main, or -1 when there is none |
| Instrument.FindMainClosing | java-runner/src/main/java/com/javavis/CodeRunner.java:103-120 | the first-pass loop returns exactly MainClosingFrom |
| Instrument.NoMainNoClosing | java-runner/src/main/java/com/javavis/CodeRunner.java:106-120 | code that never mentions main has no closing line |
| Instrument.OutsideMain | java-runner/src/main/java/com/javavis/CodeRunner.java:132-134 | before any line mentions main, no line is in main |
| Instrument.AssignmentLines | java-runner/src/main/java/com/javavis/CodeRunner.java:159-183 | the assignment branch appends exactly the rendered setVariable call for the array or variable |
| Instrument.CaptureLines | java-runner/src/main/java/com/javavis/CodeRunner.java:186-196 | the for branch appends one setVariable call per for variable |
| Instrument.RenderLine | java-runner/src/main/java/com/javavis/CodeRunner.java:149-202 | a line's output is the trace call, the line, the setVariable calls and the captureState call, each ending in a line feed |
| Instrument.InstrumentLine | java-runner/src/main/java/com/javavis/CodeRunner.java:128-205 | one iteration of the second pass appends exactly the rendering of that line's chunks, or fails where extractForVariables throws |
| Instrument.LineRendered | java-runner/src/main/java/com/javavis/CodeRunner.java:142-205 | the pieces appended for one line render its chunks |
| Instrument.SecondPassStep | java-runner/src/main/java/com/javavis/CodeRunner.java:127-206 | after one more line the text built is the rendering of the chunks so far, and a failure is that of the whole pass |
| Instrument.SecondPassLine | java-runner/src/main/java/com/javavis/CodeRunner.java:127-206 | one iteration advances the scan state by one line and extends the text by that line's chunks |
| Instrument.SecondPass | java-runner/src/main/java/com/javavis/CodeRunner.java:122-206 | the second-pass loop returns exactly the rendering of all lines' chunks, or the first failure |
| Instrument.InstrumentCode | java-runner/src/main/java/com/javavis/CodeRunner.java:95-210 | the method returns exactly the Instrumented specification: the import header followed by the rendered chunks |
| Instrument.LineFails | java-runner/src/main/java/com/javavis/CodeRunner.java:186-196 | a line fails exactly when it is instrumentable, starts with `for` and its extractForVariables throws |
| Instrument.AfterShape | java-runner/src/main/java/com/javavis/CodeRunner.java:152-202 | what follows a line is only injected text, is non-empty exactly when the line is instrumentable, and then ends with captureState of that line number |
| Instrument.LineKept | java-runner/src/main/java/com/javavis/CodeRunner.java:149 | every line's chunks contain the original line exactly once |
| Instrument.LineBounds | java-runner/src/main/java/com/javavis/CodeRunner.java:142-202 | a line's chunks start with getTraceJSON exactly on the line before main's closing line while inside main, and end with its captureState exactly when it is instrumentable |
| Instrument.OneOriginal | java-runner/src/main/java/com/javavis/CodeRunner.java:149 | injected text around one original line keeps exactly that line |
| Instrument.AssignmentsInjected | java-runner/src/main/java/com/javavis/CodeRunner.java:159-183 | the setVariable calls are injected text |
| Instrument.ForCapturesInjected | java-runner/src/main/java/com/javavis/CodeRunner.java:186-196 | the for-variable calls are injected text |
| Instrument.CapturesAreInjected | java-runner/src/main/java/com/javavis/CodeRunner.java:188-195 | every generated setVariable call is injected text |
| Instrument.OriginalsUpTo | java-runner/src/main/java/com/javavis/CodeRunner.java:127-149 | the original lines inside the output are exactly the input lines in order |
| Instrument.EachLineKept | java-runner/src/main/java/com/javavis/CodeRunner.java:149 | each line's chunks keep that line |
| Instrument.CodeIsKept | java-runner/src/main/java/com/javavis/CodeRunner.java:99-149 | joining the original lines of the output at line feeds gives back the user code |
| Instrument.FailsOnlyOnForHeaders | java-runner/src/main/java/com/javavis/CodeRunner.java:186-187 | instrumentation fails only because some instrumentable `for` line makes extractForVariables throw |
| Instrument.FailingLine | java-runner/src/main/java/com/javavis/CodeRunner.java:186-187 | the first failing line is such a `for` line |
| Instrument.ForHeaderFails | java-runner/src/main/java/com/javavis/CodeRunner.java:186-196 | any such `for` line makes the whole instrumentation fail |
| Instrument.CaptureFollowsLine | java-runner/src/main/java/com/javavis/CodeRunner.java:152-202 | every instrumentable line gets a captureState call with its own 1-based line number |
| Instrument.NoMainUnchanged | java-runner/src/main/java/com/javavis/CodeRunner.java:95-210 | code that never mentions main is returned unchanged after the import header, with one more line feed |
| Instrument.NoMainCopies | java-runner/src/main/java/com/javavis/CodeRunner.java:127-149 | without main every line is copied as it is |
| Instrument.NoMainEmissions | java-runner/src/main/java/com/javavis/CodeRunner.java:149 | without main each line emits only itself |
| Instrument.NoMainLine | java-runner/src/main/java/com/javavis/CodeRunner.java:149 | without main a line emits only itself |
| Instrument.LineCopied | java-runner/src/main/java/com/javavis/CodeRunner.java:149-152 | outside main a line is copied without injections |
| Instrument.HeaderThen | java-runner/src/main/java/com/javavis/CodeRunner.java:97 | the output is the header followed by the rendered text |
| Instrument.RenderOriginals | java-runner/src/main/java/com/javavis/CodeRunner.java:99-149 | copied lines render as their join plus a final line feed |
| StateCapture.ItemsAre | java-runner/src/main/java/com/javavis/StateCapture.java:48-56 | a successful element list has one entry per element, each the serialization of the element at its index |
| StateCapture.ItemsSucceed | java-runner/src/main/java/com/javavis/StateCapture.java:48-56 | the elements of an array serialize if and only if each of them does |
| StateCapture.ItemsErrSticks | java-runner/src/main/java/com/javavis/StateCapture.java:51-54 | once an element fails, every longer prefix of the array fails with the same error |
| StateCapture.SerializableValues | java-runner/src/main/java/com/javavis/StateCapture.java:42-79 | a value serializes within the model if and only if no object other than an array or a boxed primitive or string occurs in it, nested arrays included |
| StateCapture.RestoreSerialize | java-runner/src/main/java/com/javavis/StateCapture.java:42-63 | serialization loses nothing: null, every primitive and string, and every array (element by element, nested) comes back from its serialized form |
| StateCapture.SerializeValue | java-runner/src/main/java/com/javavis/StateCapture.java:42-79 | the recursive method with its element loop computes the serialization the function defines |
| StateCapture.KeyIndex | java-runner/src/main/java/com/javavis/StateCapture.java:16 | the index is the first entry with the key, or -1 exactly when no entry has it |
| StateCapture.PutGet | java-runner/src/main/java/com/javavis/StateCapture.java:32-34 | after a put, the key maps to the new value and every other key to what it mapped to before |
| StateCapture.KeyIndexAppend | java-runner/src/main/java/com/javavis/StateCapture.java:16 | appending an entry leaves the position of a present key alone and puts an absent key at the end |
| StateCapture.SameKeys | java-runner/src/main/java/com/javavis/StateCapture.java:16 | two maps with the same keys in the same order find every key at the same position |
| StateCapture.PutOrder | java-runner/src/main/java/com/javavis/StateCapture.java:32-34 | a put keeps the key order when the name is already set and appends the name otherwise; names stay distinct |
| StateCapture.WidenedBytes | java-runner/src/main/java/com/javavis/StateCapture.java:20-24 | every byte written to the redirected output is recoverable from its buffered character; only bytes below 0x80 come out as themselves, the rest land from U+FF80 up |
| StateCapture.InitialConsistent | java-runner/src/main/java/com/javavis/StateCapture.java:7-16 | the freshly initialized fields satisfy the recorder invariant |
| StateCapture.WriteKeeps | java-runner/src/main/java/com/javavis/StateCapture.java:20-24 | printing keeps the invariant and only extends the console buffer |
| StateCapture.SetVarKeeps | java-runner/src/main/java/com/javavis/StateCapture.java:32-34 | setting a variable keeps the invariant and the trace, and the name then holds the serialized value |
| StateCapture.CaptureKeeps | java-runner/src/main/java/com/javavis/StateCapture.java:84-100 | a capture fails with "Maximum steps exceeded" exactly when the cap is reached; otherwise it appends a step with the line, the current variables and the text printed since the previous step, and the captured length moves to the end of the buffer |
| StateCapture.ApplyKeeps | java-runner/src/main/java/com/javavis/StateCapture.java:32-146 | every recorder call that succeeds keeps the invariant |
| StateCapture.RunKeeps | java-runner/src/main/java/com/javavis/StateCapture.java:32-146 | any sequence of recorder calls that succeeds keeps the invariant, so the steps' console texts always concatenate to the captured part of the buffer |
| StateCapture.StepsAreKept | java-runner/src/main/java/com/javavis/StateCapture.java:98 | without a reset, recorded steps are never changed or dropped: the old trace is a prefix of the new one |
| StateCapture.Recorder.constructor | java-runner/src/main/java/com/javavis/StateCapture.java:7-27 | the static fields start in the initial state |
| StateCapture.Recorder.Write | java-runner/src/main/java/com/javavis/StateCapture.java:22-24 | a written byte is appended, widened, to the console buffer |
| StateCapture.Recorder.SetVariable | java-runner/src/main/java/com/javavis/StateCapture.java:32-34 | the fields become those of the specified put, or the error is reported and nothing changes |
| StateCapture.Recorder.CaptureState | java-runner/src/main/java/com/javavis/StateCapture.java:84-100 | the fields become those of the specified capture, or the error is reported and nothing changes |
| StateCapture.Recorder.Reset | java-runner/src/main/java/com/javavis/StateCapture.java:140-146 | trace, counter, buffer, captured length and variables are all back to the initial state |

## Left out

- Interpreter: the source's `Interpreter` class updates its fields in place. Here it is a set of functions over a `State` value that each evaluation step returns. The model therefore does not capture aliasing between the interpreter object and the trace entries that copy it. What each step does to scopes, heap and trace is stated in full.
- Loops and recursion in the interpreter run on a fuel bound. A run that needs more fuel than it is given ends in `OutOfFuel`. The source's own step limit (`MAX_STEPS`) is modelled exactly, and the fuel only replaces unbounded evaluation.
- Floating point numbers are not modelled beyond one fact. A double literal is kept, as its text, only when its value is provably neither an integer nor zero (`Values.DoubleLiteralValue`); truthiness, equality with a non-double, and use as an array index or length need only that fact and are answered. Any arithmetic, ordering comparison, equality of two doubles or printing that needs a double's value, and any NaN or infinity, ends in `Unmodelled`. Integers are modelled exactly up to 2^53 in magnitude, the range a double holds without rounding. An integer literal, sum, difference, product or printed number beyond that range ends in `Unmodelled` rather than being rounded as the source's doubles round it (and `String` of such a number from 10^21 on uses exponent form, which is not modelled either).
- Parsing.ParsePrimary: an integer literal beyond 2^53 is reported as `Unmodelled`; the source's `parseInt` rounds it to the nearest double.
- Values.ToJsString: the decimal or exponent form of an integer beyond 2^53 is reported as `Unmodelled`.
- Values.JsAdd: a sum beyond 2^53 is reported as `Unmodelled` instead of being rounded.
- Values.JsSub: a difference beyond 2^53 is reported as `Unmodelled` instead of being rounded.
- Values.JsMul: a product beyond 2^53 is reported as `Unmodelled` instead of being rounded.
- Values.DoubleLiteralValue: a literal that `parseFloat` rounds is reported as `Unmodelled` rather than rounded: one with a zero fraction beyond 2^53, and one with a nonzero fraction and more than 15 significant digits (trailing zeros included) or more than 300 leading zeros, which may round onto an integer or to zero. Some of these literals would round to an ordinary double in the source.
- Values.WriteIndex: an array write with a negative, boolean, double or string key, or an index of 2^32 - 1 or more, sets an ordinary property in the source and leaves the elements alone; the model reports it as `Unmodelled`.
- Service.DiagnosticOf: a host error (a JavaScript `TypeError` or `RangeError` thrown by the interpreter) is reported with its kind name; the source shows the exception's own message text, which is the engine's and not modelled.
- TraceDiff.MarkedWhenChanged: the hook compares `JSON.stringify` texts, the model compares values; they differ only for double literals, whose written text the model keeps, so `1.50` and `1.5` count as a change here and not in the source.
- TraceDiff.HeapMarksExactlyChanged: as for variables, heap entries holding double literals that differ only in how they were written count as changed here and not in the source.
- Strings are sequences of Unicode characters here; the source's JavaScript strings are sequences of UTF-16 code units, so a character above U+FFFF is one character in the model and two units (a surrogate pair) in the source. The members below are where this changes a result.
- Lexer.ScanChar: a char literal holding a character above U+FFFF, such as `'😀'`, is a CharLiteral token here; the source reads one code unit, finds the low surrogate where it wants the closing quote, and throws `Unclosed char literal.`.
- Lexer.ReadChar: the same difference as Lexer.ScanChar, in the cursor method proved equal to it.
- Lexer.ScanAt: its char-literal branch is Lexer.ScanChar, so it accepts a char literal above U+FFFF that the source rejects.
- Lexer.ScanOne: the same difference as Lexer.ScanAt, in the cursor method proved equal to it.
- Lexer.Tokenize: inherits the char-literal difference of Lexer.ScanAt; a program with a char literal above U+FFFF tokenizes here and fails in the source.
- Values.JsCompare: two strings are ordered character by character, where JavaScript's `<` orders UTF-16 code units; the results differ when a character above U+FFFF meets one from U+E000 to U+FFFF (`"😀" < "！"` is true in the source and false here).
- JavaScript's loose coercions are not modelled: string-to-number conversion, comparisons through conversion, and string keys on arrays end in `Unmodelled`.
- Values.JsDiv: division by zero gives an infinity or NaN in the source; the model only promises an error there.
- Values.ToInteger: conversions to NaN, a double or from a string are reported as `Unmodelled` rather than computed.
- Values.ReadIndex: an array read with a string key (a property such as `length` read through brackets) is reported as `Unmodelled`.
- Values.JsRem: a remainder by zero (NaN in the source) is reported as `Unmodelled`.
- Parsing of integer literals: `parseInt` on a text that is not a run of digits is reported as `Unmodelled`.
- Program output goes to the trace only. The debug `console.log` calls of the service layer, the editor's timers and all UI rendering are left out.
- File ids: `Date.now()` is a parameter of `addFile`, so the clock is outside the model.
- `cstToAst`, the ANTLR-based front end, `javaRunner.ts` (which spawns the Java process and parses its output), `VariableCapture.java`, the keyword list used for editor highlighting and the React components are not part of this model.
- CodeRunner: `main`, the compilation and process launch, the temporary directory and its deletion, and the debug prints are I/O and left out. `instrumentCode` and the name-extraction helpers are modelled.
- CodeRunner.IsWordChar: the word boundaries `\b` in `CodeRunner.WordFrom` and `CodeRunner.TypeWordAt` treat only ASCII letters, digits and `_` as word characters, as `java.util.regex` does from JDK 19 on; on older JDKs `\b` also counts Unicode letters and digits, so a type word next to a non-ASCII letter would not match there.
- StateCapture.Serialize: the reflective walk over the declared fields of an arbitrary object is not modelled; such a value serializes to `Unmodelled`.
- StateCapture: `captureCallStack` (it reads the JVM's stack), `getTraceJSON` (Gson and standard output) and the `System.setOut` redirection itself are left out. A step records line, variables and console text but not the call stack.
- Counters are unbounded integers. The JavaScript step and heap counters and the Java `stepCount` never come near their limits before the step caps stop a run, so no wrap-around is modelled.
- Concurrency: none in the core; React state updates are modelled as the sequential effect of each handler.

## Findings

| source | as written | input that shows it | evidently intended | confidence | as-written member | corrected member |
|---|---|---|---|---|---|---|
| src/lib/lexer.ts:104 | `KEYWORDS[value] ?? TokenType.Identifier` looks the word up in a plain object literal, so a word such as `toString` or `constructor` finds the member inherited from `Object.prototype` and becomes a token whose type is a function, not `Identifier`; the parser then refuses a declaration of that name. The modelled tokenizer runs this lookup as written, so the whole pipeline refuses such programs as the source does | a variable named `constructor` (`int constructor = 1;`) | every word that is not a keyword is an `Identifier` | not executed | Lexer.WordTypeAsWritten, LexerFacts.InheritedNamesAreNotIdentifiers, ParserFacts.InheritedNameDeclarationRejected | Lexer.WordType |
| src/hooks/useFileManager.ts:37-38 | after a file, the running line moves to `endLine + 1` and then by 2 more, but the `"\n\n"` join puts only one blank line between two files, so each file after the first is mapped at least one line too late | two one-line files `A` (main) and `B`: the code is `A`, blank, `B`, but `B` is mapped to line 3 and line 2 resolves to the first file | the map counts the one blank line the join inserts, so every mapped line resolves to the file and line it came from; this corrected map counts lines from 0, and its only caller, src/components/editor/CodeEditor.tsx:83, passes the parser's 1-based line, so that call would also need `line - 1` | not executed | FileManager.CombinedCodeAsWritten, FileManager.AsWrittenMapsSecondFileLate | FileManager.CombinedCodeWithMap, FileManager.LineMapIsFaithful |
