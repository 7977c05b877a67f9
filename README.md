# prolang front end in Dafny

This project models the two pieces of the prolang toy-language front end and proves properties of them:

- The tokenizer, `Lexer` in `prolang/lexer.cpp`. It makes one left-to-right pass over the source text with a cursor. Whitespace is skipped. A maximal alphanumeric run that starts with a letter becomes a Keyword or an Identifier. A maximal digit run becomes a Number. A single punctuation character becomes a Symbol. Any other character is dropped. The END_OF_FILE sentinel always closes the sequence.
- The recursive-descent parser, `Parser` in `prolang/parser.cpp`. It builds the AST from the tokens:
  - statements up to END_OF_FILE;
  - function definitions;
  - expressions closed by `;`;
  - a single-level, left-associative operator chain over primaries;
  - calls, assignments, `int` declarations, identifiers and numbers.

Files:

- `tokens.dfy` (module `Tokens`): the token classes and the token record. Both C++ files declare them; they are defined once here.
- `lexer.dfy` (module `Lexer`):
  - the ASCII character classes;
  - the specification function `LexFrom`;
  - the class `Lexer`, with the source's loops as methods proved against `LexFrom`;
  - lemmas about the token sequence;
  - `Render`, which writes tokens back out with single blanks between them, and the proof that tokenizing that text gives the tokens back.
- `ast.dfy` (module `Ast`): the AST node classes as one tree datatype.
- `parser.dfy` (module `Parser`): each grammar rule as a function of the token sequence and the cursor. Each returns the node and the new cursor, or an error. Lemmas state what the rules promise.
- `writer.dfy` (module `Writer`): `Unparse` writes a tree back out as tokens. It also defines the well-shaped trees: nested as the parser nests them, with identifiers as every function name, parameter and assignment target.
- `roundtrip.dfy` (module `RoundTrip`): the round trips.
  - Parsing the written tokens of any well-shaped tree gives the tree back.
  - Tokenizing and then parsing its rendered text gives the tree back too.
  - The parser's own sample token vector parses to the expected program.

How source behaviour is modelled:

- Values the source writes and later reads become plain data.
- The tokenizer's cursor is a field of the `Lexer` class, and its methods change that field.
- The parser's cursor is threaded through the rule functions.
- Where the source would print and return a null node, throw, or read past END_OF_FILE, the model returns an `Err`. Because of this, every successful primary, assignment, expression, statement, definition and call moves the cursor forward. The operator loop and the statement, parameter, body and argument loops may stop where they started, and each of their iterations consumes at least one token. So `|tokens| - pos` bounds the recursion.

## Model

| member | source | states |
|---|---|---|
| Lexer.WordEnd | prolang/lexer.cpp:36-39 | The word loop stops at the first non-alphanumeric character or at the end; everything before it is alphanumeric |
| Lexer.DigitEnd | prolang/lexer.cpp:55-58 | The number loop stops at the first non-digit or at the end; everything before it is a digit |
| Lexer.Lexer.constructor | prolang/lexer.cpp:70-73 | A new tokenizer holds the input, has its cursor at 0 and has the seven reserved words as its keyword set |
| Lexer.Lexer.ParseIdentifierOrKeyword | prolang/lexer.cpp:33-50 | Advances the cursor over the maximal alphanumeric run; the token is a Keyword when the run is reserved and an Identifier otherwise, with the run as its text |
| Lexer.Lexer.ParseNumber | prolang/lexer.cpp:52-61 | Advances the cursor over the maximal digit run and returns it as a Number token |
| Lexer.Lexer.ParseSymbol | prolang/lexer.cpp:63-67 | Consumes exactly one character and returns it as a one-character Symbol token |
| Lexer.Lexer.Tokenize | prolang/lexer.cpp:75-95 | Runs the cursor to the end of the input; the result is the scan specification from the starting cursor followed by END_OF_FILE |
| Lexer.Tokenize | prolang/lexer.cpp:70-95 | Constructing a tokenizer and calling tokenize yields exactly `Lex(input)` |
| Lexer.LexFromShape | prolang/lexer.cpp:77-92 | The scan emits at most one token per remaining character; every token is well formed for its class; none is END_OF_FILE |
| Lexer.LexEndsWithEof | prolang/lexer.cpp:93 | The token sequence is non-empty, its last token is END_OF_FILE with empty text, and no earlier token is END_OF_FILE |
| Lexer.LexLength | prolang/lexer.cpp:77-92 | There are at most as many tokens before END_OF_FILE as input characters |
| Lexer.LexWellFormed | prolang/lexer.cpp:75-95 | Every emitted token has the shape of its class |
| Lexer.LexKeywordIffReserved | prolang/lexer.cpp:42-49 | A word token is a Keyword if and only if its text is one of def, int, if, else, return, while, elif |
| Lexer.LexWordTokens | prolang/lexer.cpp:33-40 | Keyword and Identifier texts are non-empty, start with a letter and contain only letters and digits |
| Lexer.LexNumberTokens | prolang/lexer.cpp:52-60 | Number texts are non-empty and all digits |
| Lexer.LexSymbolTokens | prolang/lexer.cpp:63-67 | Every Symbol text is exactly one punctuation character, so `<<` becomes two tokens |
| Lexer.LexHasNoShiftTokens | prolang/lexer.cpp:63-67 | No token text is `<<` or `>>` |
| Lexer.LexTexts | prolang/lexer.cpp:77-92 | The token texts, concatenated in order, equal the input with every character that is neither alphanumeric nor punctuation removed |
| Lexer.LexRender | prolang/lexer.cpp:75-95 | Tokenizing the blank-separated texts of tokens the tokenizer can emit gives back exactly those tokens, closed by END_OF_FILE |
| Parser.ExpectSymbol | prolang/parser.cpp:299-309 | Succeeds exactly when the current token's text is the symbol, and then advances by one; otherwise it fails with an error naming the symbol, the token found and the unchanged cursor |
| Parser.ParseStatements | prolang/parser.cpp:154-162 | On success returns a BlockNode and leaves the cursor on the END_OF_FILE token |
| Parser.StatementList | prolang/parser.cpp:157-160 | The statement loop runs to the END_OF_FILE index, never past it, and never moves the cursor backwards |
| Parser.ParseStatement | prolang/parser.cpp:164-173 | A successful statement consumes at least one token and never moves past END_OF_FILE |
| Parser.ParseExpression | prolang/parser.cpp:179-183 | A successful expression consumes at least one token and never moves past END_OF_FILE |
| Parser.ParsePrimary | prolang/parser.cpp:185-221 | A successful primary consumes at least one token and is never a BinaryOp node |
| Parser.ParseAssignment | prolang/parser.cpp:223-229 | A successful assignment consumes at least one token and never moves past END_OF_FILE |
| Parser.ParseBinaryOp | prolang/parser.cpp:231-250 | The operator loop never moves the cursor backwards or past END_OF_FILE, and it adds only operators that occur in the tokens |
| Parser.ParseFunction | prolang/parser.cpp:252-278 | A successful definition consumes at least one token and never moves past END_OF_FILE |
| Parser.ParseParams | prolang/parser.cpp:259-266 | The parameter loop stops only on a `)` token, at or after the cursor |
| Parser.ParseBody | prolang/parser.cpp:271-274 | The body loop stops only on a `}` token and never moves the cursor backwards |
| Parser.ParseFunctionCall | prolang/parser.cpp:280-297 | A successful call consumes at least one token and never moves past END_OF_FILE |
| Parser.ParseArgs | prolang/parser.cpp:286-293 | The argument loop stops only on a `)` token and never moves the cursor backwards |
| Parser.Parse | prolang/parser.cpp:152-162 | A successful parse of an END_OF_FILE-terminated sequence yields a BlockNode whose operators all occur in the tokens |
| Parser.PrimaryIdentifierDispatch | prolang/parser.cpp:187-201 | On an Identifier: if the next token is `(` the result is the call rule and is named by the identifier; otherwise if it is `=` the result is the assignment rule to that name; otherwise it is the identifier itself, consuming one token |
| Parser.TypedDeclIsAssignment | prolang/parser.cpp:210-216 | `int x = e` parses exactly like `x = e` one token later; the `int` is dropped |
| Parser.BinaryOpStep | prolang/parser.cpp:233-248 | With no operator at the cursor, the left operand comes back unchanged and nothing is consumed; on an operator, the operator and the following primary fold into the left operand and the loop continues |
| Parser.BinaryOpIsLeftFold | prolang/parser.cpp:231-250 | The result of the operator loop is built left-associatively on top of the incoming left operand, with a non-BinaryOp primary as every right operand |
| Parser.LeftFoldExample | prolang/parser.cpp:231-250 | `a + b - c` parses to `BinaryOp("-", BinaryOp("+", a, b), c)` and stops before `;` |
| Parser.ExpressionStatementNeedsSemicolon | prolang/parser.cpp:170-172 | A non-`def` statement succeeds only when its expression is followed by `;`, which it consumes; otherwise it fails expecting `;` at the token after the expression |
| Parser.FunctionShape | prolang/parser.cpp:252-278 | A successful definition starts with `def`, takes its name from the next token, needs `(` after the name and ends with the `}` just before the new cursor |
| Parser.MissingBraceFails | prolang/parser.cpp:271-275 | Without a `}` at or after the cursor, a definition fails instead of yielding a tree |
| Parser.UnterminatedBodyFails | prolang/parser.cpp:271-275 | A body loop that reaches END_OF_FILE before `}` fails with an unexpected-token error at the END_OF_FILE token |
| Parser.NullPrimaryIsError | prolang/parser.cpp:219-220 | Every token that starts no primary (any Symbol, any Keyword other than `int`, END_OF_FILE) makes parsePrimary fail with an unexpected-token error at that token, and so does a statement it opens, unless it is `def` |
| Parser.CallShape | prolang/parser.cpp:280-297 | A successful call carries the name it was given, needs `(` right after the cursor and ends with the `)` just before the new cursor |
| Writer.NatToDigits | prolang/parser.cpp:205 | The written digits of n are a digit string that std::stoi reads back as n |
| RoundTrip.ExprRoundTrip | prolang/parser.cpp:179-183 | parseExpression reads back a written expression whole, stopping at a following `;`, `,` or `)` |
| RoundTrip.PrimaryRoundTrip | prolang/parser.cpp:185-221 | parsePrimary reads back a written number, identifier, assignment or call |
| RoundTrip.BinaryFold | prolang/parser.cpp:231-250 | On a written left-nested operator chain, parseExpression behaves as the operator loop started at the chain's end with the whole chain as its left operand |
| RoundTrip.AssignRoundTrip | prolang/parser.cpp:223-229 | parsePrimary reads back a written assignment `x = e` |
| RoundTrip.CallRoundTrip | prolang/parser.cpp:280-297 | parsePrimary reads back a written call with its arguments in source order, through its `)` |
| RoundTrip.ArgsRoundTrip | prolang/parser.cpp:286-293 | The argument loop reads back comma-separated written arguments in order and stops on `)` |
| RoundTrip.ParamsRoundTrip | prolang/parser.cpp:259-266 | The parameter loop reads back comma-separated names in order and stops on `)` |
| RoundTrip.StmtRoundTrip | prolang/parser.cpp:164-173 | parseStatement reads back a written definition or expression statement |
| RoundTrip.FunctionRoundTrip | prolang/parser.cpp:252-278 | parseStatement reads back a written definition, through its `def` branch into parseFunction, with its name, parameters and body in source order |
| RoundTrip.BodyRoundTrip | prolang/parser.cpp:271-274 | The body loop reads back written statements in order and stops on `}` |
| RoundTrip.StatementListRoundTrip | prolang/parser.cpp:157-160 | The statement loop reads back written statements in order up to END_OF_FILE |
| RoundTrip.ParseUnparse | prolang/parser.cpp:154-162 | The written tokens of any program nested as the parser nests it, with identifiers as function names, parameters and assignment targets, are END_OF_FILE-terminated and parse back to exactly that program |
| RoundTrip.SourceRoundTrip | prolang/lexer.cpp:75-95 | For such programs over `+ - * /`, tokenizing the rendered source text and parsing the tokens gives the program back |
| RoundTrip.ScannedProgramsUseScannedOperators | prolang/parser.cpp:239 | No tree parsed from tokenizer output contains `<<` or `>>`: those two operators are unreachable from source text |
| RoundTrip.SampleParses | prolang/parser.cpp:314-340 | The sample driver's token vector, closed by END_OF_FILE, parses to a definition `myFunc(a, b)` whose body assigns 10 to `x`, followed by the call `myFunc(5, 15)` |

## Left out

- The `print` methods of the node classes, `printTokens`, and all console output. They only write to the console.
- The two `main` drivers. The parser's sample token vector is used by `RoundTrip.SampleParses`, with END_OF_FILE appended. That vector has no END_OF_FILE, so it falls outside the parser's precondition as written.
- Token sequences that do not end in exactly one END_OF_FILE. Every rule requires such a sequence, because that is what the tokenizer produces. Under this precondition the unchecked `tokens[pos + 1]` in parsePrimary is always in range.
- The error message parsePrimary prints on an unexpected token, and the exception expectSymbol throws. Both are `Err` results that carry the token and the position.
- Reading past END_OF_FILE. In the source this happens at three places. After `def`, parser.cpp:255 takes the END_OF_FILE token as the name and steps over it, and the next expectSymbol reads past the end (parser.cpp:256, read at :301). After `int`, parser.cpp:213 does the same, and the read past the end is the expectSymbol at parser.cpp:214. The parameter loop pushes the END_OF_FILE text and then reads past the end at parser.cpp:261-262. Each becomes an `Err` instead of undefined behaviour.
- A function body that reaches END_OF_FILE without `}` fails in both. The source's parsePrimary returns null there, and expectSymbol(";") throws at parser.cpp:307. The model gives `UnexpectedToken` on the END_OF_FILE token.
- The source's argument loop can spin forever, for example on `f ( ;`. There parsePrimary returns null without moving the cursor. In the model that null is an error, so the loop stops.
- In the source a null primary does not stop the parse. Programs such as `;`, `x = ;`, `a + ;` and `f(1,,2);` succeed there, with null nodes in the tree. In the model each of these is an `Err`.
- `std::stoi` overflow and the 32-bit `int` range. A Number's value is the natural number its digits denote.
- Parser.ParsePrimary: a Number token whose text is not a digit string gives `InvalidNumber`. `std::stoi` would instead skip leading blanks, accept a sign, and then read a digit prefix or throw. The tokenizer never produces such a token.
- Locale-dependent `<cctype>` behaviour. The character classes are the ASCII ones of the "C" locale.
- `shared_ptr` ownership and reference counting. The tree datatype replaces them.
- The unused `precedence` parameter of parseBinaryOp.
- parseBinaryOp's `pos >= tokens.size()` exit. It is unreachable while the cursor is on or before END_OF_FILE.
- The parser class's mutable `pos` field. Each rule takes the cursor and returns the new one. Aliasing of the cursor between rules is therefore not modelled.
- RoundTrip.ParseUnparse: it covers only programs whose function names, parameters and assignment targets are identifiers. The parser also accepts other tokens there: the tokens of `def f(1){}`, `def if(){}` and `int 5 = 3;` all parse. The round trips are stated and proved only for identifier names, so such trees fall outside them.
- RoundTrip.SourceRoundTrip: it covers only programs whose operators are `+ - * /`. The tokenizer splits `<<` and `>>` into two tokens, so those programs cannot round-trip through source text.
