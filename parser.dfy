/** The recursive-descent parser of prolang/parser.cpp.

    Each grammar rule of class `Parser` is a function of the token sequence
    and the cursor `pos`; it returns the node it built together with the new
    cursor, or the error that stops the parse. The `while` loops of the
    source (statements, parameters, body, arguments, operator chain) are the
    recursive functions `StatementList`, `ParseParams`, `ParseBody`,
    `ParseArgs` and `ParseBinaryOp`.

    Where the source throws (expectSymbol), prints and returns a null node
    (parsePrimary) or would read past the END_OF_FILE token, the model
    returns an `Err`. Because of that every successful primary, assignment,
    expression, statement, definition and call consumes at least one token;
    the operator loop and the statement, parameter, body and argument loops
    may stop where they started, but each of their iterations consumes at
    least one token. That is what makes `|tokens| - pos` a termination
    measure for the mutual recursion. */
module Parser {
  import opened Tokens
  import opened Ast
  import Lexer

  datatype ParseError =
      /** expectSymbol's runtime_error: `expected` was not the token at `position`. */
    | ExpectedSymbol(expected: string, found: Token, position: nat)
      /** parsePrimary found no production for the token at `position`. */
    | UnexpectedToken(found: Token, position: nat)
      /** The rule would have stepped over the END_OF_FILE token at `position`. */
    | UnexpectedEnd(position: nat)
      /** A Number token whose text is not a decimal digit string (std::stoi rejects it). */
    | InvalidNumber(found: Token, position: nat)

  datatype Result<+T> = Ok(value: T) | Err(error: ParseError) {
    predicate IsFailure() { Err? }
    function PropagateFailure<U>(): Result<U> requires Err? { Err(error) }
    function Extract(): T requires Ok? { value }
  }

  /** The operators parseBinaryOp folds, all at one precedence level. */
  const BinaryOperators: set<string> := {"+", "-", "*", "/", "<<", ">>"}

  /** What the tokenizer guarantees: the sequence ends with the END_OF_FILE
      token (empty text) and holds no other END_OF_FILE token. */
  predicate WellTerminated(tokens: seq<Token>) {
    |tokens| > 0 && tokens[|tokens| - 1] == Eof &&
    forall i :: 0 <= i < |tokens| - 1 ==> tokens[i].kind != EndOfFile
  }

  /** A cursor on a well-terminated sequence, at or before the END_OF_FILE index. */
  predicate ValidCursor(tokens: seq<Token>, pos: nat) {
    WellTerminated(tokens) && pos < |tokens|
  }

  /** The operator texts that occur in the token sequence. */
  ghost function OperatorTexts(tokens: seq<Token>): set<string> {
    set i | 0 <= i < |tokens| && tokens[i].text in BinaryOperators :: tokens[i].text
  }

  /** A successful rule moved the cursor forward and not past END_OF_FILE,
      and every operator of its node comes from the tokens. */
  ghost predicate Advanced(tokens: seq<Token>, pos: nat, r: Result<(Node, nat)>) {
    r.Ok? ==> pos < r.value.1 < |tokens| && OperatorsIn(r.value.0, OperatorTexts(tokens))
  }

  /** The same for a rule that may succeed without consuming anything. */
  ghost predicate AdvancedList(tokens: seq<Token>, pos: nat, r: Result<(seq<Node>, nat)>) {
    r.Ok? ==> pos <= r.value.1 < |tokens| &&
              forall i :: 0 <= i < |r.value.0| ==> OperatorsIn(r.value.0[i], OperatorTexts(tokens))
  }

  /** The number a decimal digit string denotes, as std::stoi reads it. */
  function DigitsValue(s: string): nat
    decreases |s|
  {
    if s == [] then 0
    else DigitsValue(s[..|s| - 1]) * 10 + DigitValue(s[|s| - 1])
  }

  function DigitValue(c: char): nat {
    if Lexer.IsDigit(c) then (c as int - '0' as int) as nat else 0
  }

  /** expectSymbol: consume the token at the cursor when its text is `symbol`. */
  function ExpectSymbol(tokens: seq<Token>, pos: nat, symbol: string): (r: Result<nat>)
    requires ValidCursor(tokens, pos)
    ensures r.Ok? <==> tokens[pos].text == symbol
    ensures r.Ok? ==> r.value == pos + 1 && (symbol != "" ==> r.value < |tokens|)
    ensures r.Err? ==> r.error == ExpectedSymbol(symbol, tokens[pos], pos)
  {
    if tokens[pos].text == symbol then Ok(pos + 1)
    else Err(ExpectedSymbol(symbol, tokens[pos], pos))
  }

  /** parseStatements: statements up to the END_OF_FILE token, as a BlockNode. */
  function ParseStatements(tokens: seq<Token>, pos: nat): (r: Result<(Node, nat)>)
    requires ValidCursor(tokens, pos)
    ensures r.Ok? ==> r.value.0.BlockNode? && pos <= r.value.1 == |tokens| - 1
    ensures r.Ok? ==> OperatorsIn(r.value.0, OperatorTexts(tokens))
    decreases |tokens| - pos, 7
  {
    var (statements, p1) :- StatementList(tokens, pos);
    Ok((BlockNode(statements), p1))
  }

  /** The loop of parseStatements. */
  function StatementList(tokens: seq<Token>, pos: nat): (r: Result<(seq<Node>, nat)>)
    requires ValidCursor(tokens, pos)
    ensures AdvancedList(tokens, pos, r)
    ensures r.Ok? ==> r.value.1 == |tokens| - 1
    decreases |tokens| - pos, 6
  {
    if tokens[pos].kind == EndOfFile then Ok(([], pos))
    else
      var (statement, p1) :- ParseStatement(tokens, pos);
      var (rest, p2) :- StatementList(tokens, p1);
      Ok(([statement] + rest, p2))
  }

  /** parseStatement: a function definition, or an expression closed by `;`. */
  function ParseStatement(tokens: seq<Token>, pos: nat): (r: Result<(Node, nat)>)
    requires ValidCursor(tokens, pos)
    ensures Advanced(tokens, pos, r)
    decreases |tokens| - pos, 5
  {
    if tokens[pos].text == "def" then ParseFunction(tokens, pos)
    else
      var (expr, p1) :- ParseExpression(tokens, pos);
      var p2 :- ExpectSymbol(tokens, p1, ";");
      Ok((expr, p2))
  }

  /** parseExpression: a primary, then the operator chain that follows it. */
  function ParseExpression(tokens: seq<Token>, pos: nat): (r: Result<(Node, nat)>)
    requires ValidCursor(tokens, pos)
    ensures Advanced(tokens, pos, r)
    decreases |tokens| - pos, 3
  {
    var (left, p1) :- ParsePrimary(tokens, pos);
    ParseBinaryOp(tokens, left, p1)
  }

  /** parsePrimary: call, assignment or identifier (chosen by the next token),
      number, or `int` declaration. */
  function ParsePrimary(tokens: seq<Token>, pos: nat): (r: Result<(Node, nat)>)
    requires ValidCursor(tokens, pos)
    ensures Advanced(tokens, pos, r)
    ensures r.Ok? ==> !r.value.0.BinaryOpNode?
    decreases |tokens| - pos, 2
  {
    var t := tokens[pos];
    if t.kind == Identifier then
      // t is not END_OF_FILE, so the token after it exists
      if tokens[pos + 1].text == "(" then ParseFunctionCall(tokens, pos, t.text)
      else if tokens[pos + 1].text == "=" then ParseAssignment(tokens, pos)
      else Ok((IdentifierNode(t.text), pos + 1))
    else if t.kind == Number then
      if Lexer.IsDigitText(t.text) then Ok((NumberNode(DigitsValue(t.text)), pos + 1))
      else Err(InvalidNumber(t, pos))
    else if t.kind == Keyword && t.text == "int" then
      // the token after `int` is taken as the declared name, whatever its class
      if tokens[pos + 1].kind == EndOfFile then Err(UnexpectedEnd(pos + 1))
      else
        var name := tokens[pos + 1].text;
        var p1 :- ExpectSymbol(tokens, pos + 2, "=");
        var (value, p2) :- ParseExpression(tokens, p1);
        Ok((AssignmentNode(name, value), p2))
    else Err(UnexpectedToken(t, pos))
  }

  /** parseAssignment: name, `=`, expression. */
  function ParseAssignment(tokens: seq<Token>, pos: nat): (r: Result<(Node, nat)>)
    requires ValidCursor(tokens, pos)
    ensures Advanced(tokens, pos, r)
    decreases |tokens| - pos, 1
  {
    if tokens[pos].kind == EndOfFile then Err(UnexpectedEnd(pos))
    else
      var name := tokens[pos].text;
      var p1 :- ExpectSymbol(tokens, pos + 1, "=");
      var (value, p2) :- ParseExpression(tokens, p1);
      Ok((AssignmentNode(name, value), p2))
  }

  /** parseBinaryOp: while the cursor is on an operator, consume it and a
      primary and make the tree so far the left operand. */
  function ParseBinaryOp(tokens: seq<Token>, left: Node, pos: nat): (r: Result<(Node, nat)>)
    requires ValidCursor(tokens, pos)
    ensures r.Ok? ==> pos <= r.value.1 < |tokens|
    ensures r.Ok? && OperatorsIn(left, OperatorTexts(tokens)) ==> OperatorsIn(r.value.0, OperatorTexts(tokens))
    decreases |tokens| - pos, 0
  {
    var op := tokens[pos].text;
    if op in BinaryOperators then
      assert op in OperatorTexts(tokens);
      var (right, p1) :- ParsePrimary(tokens, pos + 1);
      ParseBinaryOp(tokens, BinaryOpNode(op, left, right), p1)
    else Ok((left, pos))
  }

  /** parseFunction: `def`, name, parameter list, body in braces. */
  function ParseFunction(tokens: seq<Token>, pos: nat): (r: Result<(Node, nat)>)
    requires ValidCursor(tokens, pos)
    ensures Advanced(tokens, pos, r)
    decreases |tokens| - pos, 4
  {
    var p1 :- ExpectSymbol(tokens, pos, "def");
    if tokens[p1].kind == EndOfFile then Err(UnexpectedEnd(p1))
    else
      var functionName := tokens[p1].text;
      var p2 :- ExpectSymbol(tokens, p1 + 1, "(");
      var (parameters, p3) :- ParseParams(tokens, p2);
      // the parameter loop stops only on `)`, the body loop only on `}`,
      // so these two expectSymbol calls always succeed; a `match` rather
      // than `:-` keeps the unreachable failure branch free of checks
      match ExpectSymbol(tokens, p3, ")")
      case Err(e) => Err(e)
      case Ok(p4) =>
        var p5 :- ExpectSymbol(tokens, p4, "{");
        var (body, p6) :- ParseBody(tokens, p5);
        match ExpectSymbol(tokens, p6, "}")
        case Err(e) => Err(e)
        case Ok(p7) => Ok((FunctionNode(functionName, parameters, body), p7))
  }

  /** The parameter loop of parseFunction: every token up to `)` is a
      parameter name; a `,` after a name is skipped. */
  function ParseParams(tokens: seq<Token>, pos: nat): (r: Result<(seq<string>, nat)>)
    requires ValidCursor(tokens, pos)
    ensures r.Ok? ==> pos <= r.value.1 < |tokens| && tokens[r.value.1].text == ")"
    decreases |tokens| - pos
  {
    if tokens[pos].text == ")" then Ok(([], pos))
    else if tokens[pos].kind == EndOfFile then Err(UnexpectedEnd(pos))
    else
      var name := tokens[pos].text;
      var p1 := if tokens[pos + 1].text == "," then pos + 2 else pos + 1;
      var (rest, p2) :- ParseParams(tokens, p1);
      Ok(([name] + rest, p2))
  }

  /** The body loop of parseFunction: statements up to `}`. */
  function ParseBody(tokens: seq<Token>, pos: nat): (r: Result<(seq<Node>, nat)>)
    requires ValidCursor(tokens, pos)
    ensures AdvancedList(tokens, pos, r)
    ensures r.Ok? ==> tokens[r.value.1].text == "}"
    decreases |tokens| - pos, 6
  {
    if tokens[pos].text == "}" then Ok(([], pos))
    else
      var (statement, p1) :- ParseStatement(tokens, pos);
      var (rest, p2) :- ParseBody(tokens, p1);
      Ok(([statement] + rest, p2))
  }

  /** parsseFuntionCall: skip the name, `(`, arguments, `)`. */
  function ParseFunctionCall(tokens: seq<Token>, pos: nat, functionName: string): (r: Result<(Node, nat)>)
    requires ValidCursor(tokens, pos)
    ensures Advanced(tokens, pos, r)
    decreases |tokens| - pos, 1
  {
    if tokens[pos].kind == EndOfFile then Err(UnexpectedEnd(pos))
    else
      var p1 :- ExpectSymbol(tokens, pos + 1, "(");
      var (arguments, p2) :- ParseArgs(tokens, p1);
      // the argument loop stops only on `)`, so this always succeeds
      match ExpectSymbol(tokens, p2, ")")
      case Err(e) => Err(e)
      case Ok(p3) => Ok((FunctionCallNode(functionName, arguments), p3))
  }

  /** The argument loop of parsseFuntionCall: expressions up to `)`; a `,`
      after an argument is skipped. */
  function ParseArgs(tokens: seq<Token>, pos: nat): (r: Result<(seq<Node>, nat)>)
    requires ValidCursor(tokens, pos)
    ensures AdvancedList(tokens, pos, r)
    ensures r.Ok? ==> tokens[r.value.1].text == ")"
    decreases |tokens| - pos, 4
  {
    if tokens[pos].text == ")" then Ok(([], pos))
    else
      var (argument, p1) :- ParseExpression(tokens, pos);
      var p2 := if tokens[p1].text == "," then p1 + 1 else p1;
      var (rest, p3) :- ParseArgs(tokens, p2);
      Ok(([argument] + rest, p3))
  }

  /** A parser constructed on `tokens` and asked for parseStatements. */
  function Parse(tokens: seq<Token>): (r: Result<Node>)
    requires WellTerminated(tokens)
    ensures r.Ok? ==> r.value.BlockNode? && OperatorsIn(r.value, OperatorTexts(tokens))
  {
    var (block, _) :- ParseStatements(tokens, 0);
    Ok(block)
  }

  // ---------------------------------------------------------------------
  // Properties of the rules
  // ---------------------------------------------------------------------

  /** After an Identifier, one token of lookahead picks the production:
      `(` gives a call named by the identifier, `=` an assignment to it,
      anything else the identifier alone, consuming exactly one token. */
  lemma PrimaryIdentifierDispatch(tokens: seq<Token>, pos: nat)
    requires ValidCursor(tokens, pos) && tokens[pos].kind == Identifier
    ensures pos + 1 < |tokens|
    ensures var r := ParsePrimary(tokens, pos);
            tokens[pos + 1].text == "(" ==>
              r == ParseFunctionCall(tokens, pos, tokens[pos].text) &&
              (r.Ok? ==> r.value.0.FunctionCallNode? && r.value.0.functionName == tokens[pos].text)
    ensures var r := ParsePrimary(tokens, pos);
            tokens[pos + 1].text != "(" && tokens[pos + 1].text == "=" ==>
              r == ParseAssignment(tokens, pos) &&
              (r.Ok? ==> r.value.0.AssignmentNode? && r.value.0.target == tokens[pos].text)
    ensures tokens[pos + 1].text != "(" && tokens[pos + 1].text != "=" ==>
              ParsePrimary(tokens, pos) == Ok((IdentifierNode(tokens[pos].text), pos + 1))
  {
  }

  /** `int x = e` is parsed exactly as `x = e` one token later: the type
      keyword is consumed and dropped. */
  lemma TypedDeclIsAssignment(tokens: seq<Token>, pos: nat)
    requires ValidCursor(tokens, pos) && tokens[pos] == Token(Keyword, "int")
    ensures pos + 1 < |tokens|
    ensures ParsePrimary(tokens, pos) == ParseAssignment(tokens, pos + 1)
    ensures tokens[pos + 1].kind == Identifier && tokens[pos + 2].text == "=" ==>
              ParsePrimary(tokens, pos) == ParsePrimary(tokens, pos + 1)
  {
    if tokens[pos + 1].kind == Identifier && tokens[pos + 2].text == "=" {
      PrimaryIdentifierDispatch(tokens, pos + 1);
    }
  }

  /** `n` is `left` with zero or more operator/primary pairs folded onto it
      from the left: every right operand on the way is not itself a BinaryOp. */
  predicate LeftFoldOf(n: Node, left: Node) {
    n == left ||
    (n.BinaryOpNode? && n.op in BinaryOperators && !n.right.BinaryOpNode? && LeftFoldOf(n.left, left))
  }

  /** With no operator at the cursor the left operand comes back unchanged
      and nothing is consumed; otherwise the operator and the primary after
      it are consumed and the chain continues with the folded node. */
  lemma BinaryOpStep(tokens: seq<Token>, left: Node, pos: nat)
    requires ValidCursor(tokens, pos)
    ensures tokens[pos].text !in BinaryOperators ==> ParseBinaryOp(tokens, left, pos) == Ok((left, pos))
    ensures tokens[pos].text in BinaryOperators ==>
              pos + 1 < |tokens| &&
              var primary := ParsePrimary(tokens, pos + 1);
              (primary.Err? ==> ParseBinaryOp(tokens, left, pos) == Err(primary.error)) &&
              (primary.Ok? ==>
                 ParseBinaryOp(tokens, left, pos) ==
                 ParseBinaryOp(tokens, BinaryOpNode(tokens[pos].text, left, primary.value.0), primary.value.1))
  {
  }

  /** The operator chain is a left fold: its result is built on top of the
      left operand, with a primary as every right operand. */
  lemma {:induction false} BinaryOpIsLeftFold(tokens: seq<Token>, left: Node, pos: nat)
    requires ValidCursor(tokens, pos)
    ensures ParseBinaryOp(tokens, left, pos).Ok? ==> LeftFoldOf(ParseBinaryOp(tokens, left, pos).value.0, left)
    decreases |tokens| - pos
  {
    var op := tokens[pos].text;
    if op in BinaryOperators {
      assert op in OperatorTexts(tokens);
      match ParsePrimary(tokens, pos + 1)
      case Err(_) =>
      case Ok((right, p1)) =>
        var folded := BinaryOpNode(op, left, right);
        BinaryOpIsLeftFold(tokens, folded, p1);
        LeftFoldTransitive(ParseBinaryOp(tokens, folded, p1), folded, left);
    }
  }

  lemma {:induction false} LeftFoldTransitive(r: Result<(Node, nat)>, mid: Node, left: Node)
    requires r.Ok? ==> LeftFoldOf(r.value.0, mid)
    requires LeftFoldOf(mid, left)
    ensures r.Ok? ==> LeftFoldOf(r.value.0, left)
  {
    if r.Ok? {
      LeftFoldChain(r.value.0, mid, left);
    }
  }

  lemma {:induction false} LeftFoldChain(n: Node, mid: Node, left: Node)
    requires LeftFoldOf(n, mid) && LeftFoldOf(mid, left)
    ensures LeftFoldOf(n, left)
  {
    if n != mid {
      LeftFoldChain(n.left, mid, left);
    }
  }

  /** A statement that does not start with `def` succeeds exactly when its
      expression is followed by `;`, which it consumes. */
  lemma ExpressionStatementNeedsSemicolon(tokens: seq<Token>, pos: nat)
    requires ValidCursor(tokens, pos) && tokens[pos].text != "def"
    ensures var r := ParseStatement(tokens, pos);
            r.Ok? ==> pos + 1 < r.value.1 && tokens[r.value.1 - 1].text == ";" &&
                      ParseExpression(tokens, pos) == Ok((r.value.0, r.value.1 - 1))
    ensures var e := ParseExpression(tokens, pos);
            e.Ok? && tokens[e.value.1].text != ";" ==>
              ParseStatement(tokens, pos) == Err(ExpectedSymbol(";", tokens[e.value.1], e.value.1))
  {
  }

  /** A definition gets its name from the token after `def`, needs `(`
      after the name and ends with the `}` just before the new cursor. */
  lemma FunctionShape(tokens: seq<Token>, pos: nat)
    requires ValidCursor(tokens, pos)
    ensures var r := ParseFunction(tokens, pos);
            r.Ok? ==>
              pos + 3 < r.value.1 &&
              tokens[pos].text == "def" && tokens[pos + 2].text == "(" &&
              tokens[r.value.1 - 1].text == "}" &&
              r.value.0.FunctionNode? && r.value.0.name == tokens[pos + 1].text
  {
  }

  /** Without a `}` at or after the cursor a definition fails rather than
      yielding a tree. */
  lemma MissingBraceFails(tokens: seq<Token>, pos: nat)
    requires ValidCursor(tokens, pos)
    requires forall i :: pos <= i < |tokens| ==> tokens[i].text != "}"
    ensures ParseFunction(tokens, pos).Err?
  {
    FunctionShape(tokens, pos);
  }

  /** A body that runs into END_OF_FILE before its `}` is an error
      reported at the END_OF_FILE token. */
  lemma UnterminatedBodyFails(tokens: seq<Token>, pos: nat)
    requires ValidCursor(tokens, pos) && pos == |tokens| - 1
    ensures ParseBody(tokens, pos) == Err(UnexpectedToken(tokens[pos], pos))
  {
    assert ParsePrimary(tokens, pos) == Err(UnexpectedToken(tokens[pos], pos));
    assert ParseExpression(tokens, pos) == Err(UnexpectedToken(tokens[pos], pos));
    assert ParseStatement(tokens, pos) == Err(UnexpectedToken(tokens[pos], pos));
  }

  /** A token that starts no primary (any Symbol, any Keyword other than
      `int`, END_OF_FILE) is an error at that token, and so is the statement
      it opens unless it is `def`: the null primary of the source is not
      carried into the tree. */
  lemma NullPrimaryIsError(tokens: seq<Token>, pos: nat)
    requires ValidCursor(tokens, pos)
    requires tokens[pos].kind != Identifier && tokens[pos].kind != Number
    requires !(tokens[pos].kind == Keyword && tokens[pos].text == "int")
    ensures ParsePrimary(tokens, pos) == Err(UnexpectedToken(tokens[pos], pos))
    ensures tokens[pos].text != "def" ==>
              ParseStatement(tokens, pos) == Err(UnexpectedToken(tokens[pos], pos))
  {
  }

  /** A call is named by the token at the cursor, needs `(` after it and
      ends with the `)` just before the new cursor. */
  lemma CallShape(tokens: seq<Token>, pos: nat, name: string)
    requires ValidCursor(tokens, pos)
    ensures var r := ParseFunctionCall(tokens, pos, name);
            r.Ok? ==>
              pos + 2 < r.value.1 && tokens[pos + 1].text == "(" &&
              tokens[r.value.1 - 1].text == ")" &&
              r.value.0.FunctionCallNode? && r.value.0.functionName == name
  {
  }

  /** The tokens of `a + b - c;`. */
  const FoldTokens: seq<Token> := [
    Token(Identifier, "a"), Token(Symbol, "+"), Token(Identifier, "b"),
    Token(Symbol, "-"), Token(Identifier, "c"), Token(Symbol, ";"), Eof]

  /** `a + b - c` folds to the left: `(a + b) - c`. */
  lemma LeftFoldExample(t: seq<Token>)
    requires t == FoldTokens
    ensures WellTerminated(t)
    ensures ParseExpression(t, 0) ==
            Ok((BinaryOpNode("-", BinaryOpNode("+", IdentifierNode("a"), IdentifierNode("b")), IdentifierNode("c")), 5))
  {
    var a, b, c := IdentifierNode("a"), IdentifierNode("b"), IdentifierNode("c");
    var ab := BinaryOpNode("+", a, b);
    var abc := BinaryOpNode("-", ab, c);
    FoldOperands(t);
    BinaryOpStep(t, abc, 5);
    BinaryOpStep(t, ab, 3);
    assert ParseBinaryOp(t, ab, 3) == Ok((abc, 5));
    BinaryOpStep(t, a, 1);
  }

  /** The three operands of `a + b - c;` are identifiers. */
  lemma FoldOperands(t: seq<Token>)
    requires t == FoldTokens
    ensures WellTerminated(t)
    ensures ParsePrimary(t, 0) == Ok((IdentifierNode("a"), 1))
    ensures ParsePrimary(t, 2) == Ok((IdentifierNode("b"), 3))
    ensures ParsePrimary(t, 4) == Ok((IdentifierNode("c"), 5))
    ensures t[1].text == "+" && t[3].text == "-" && t[5].text == ";"
  {
    assert WellTerminated(t);
    PrimaryIdentifierDispatch(t, 0);
    PrimaryIdentifierDispatch(t, 2);
    PrimaryIdentifierDispatch(t, 4);
  }
}
