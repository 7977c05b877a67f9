/** Partners of the tokenizer and the parser.

    `Unparse` writes a program tree back out as tokens, and `Render` writes
    tokens out as source text with one blank between neighbours. For every
    tree nested as the parser nests it whose function names, parameters and
    assignment targets are identifiers, parsing the unparsed tokens
    gives the tree back, and tokenizing the rendered text gives the tokens
    back; together, tokenize-then-parse inverts render-then-unparse. The
    rules' left fold, lookahead, separators and terminators are all
    exercised by these statements. */
module RoundTrip {
  import opened Tokens
  import opened Ast
  import opened Parser
  import opened Writer
  import Lexer

  lemma {:induction false} MatchesConcat(tokens: seq<Token>, pos: nat, a: seq<Token>, b: seq<Token>)
    requires Matches(tokens, pos, a + b)
    ensures Matches(tokens, pos, a) && Matches(tokens, pos + |a|, b)
    decreases |a|
  {
    if |a| == 0 {
      assert a + b == b;
    } else {
      assert (a + b)[0] == a[0] && (a + b)[1..] == a[1..] + b;
      MatchesConcat(tokens, pos + 1, a[1..], b);
    }
  }

  lemma {:induction false} MatchesAt(tokens: seq<Token>, pos: nat, u: seq<Token>, k: nat)
    requires Matches(tokens, pos, u) && k < |u|
    ensures pos + k < |tokens| && tokens[pos + k] == u[k]
    decreases k
  {
    if k > 0 {
      MatchesAt(tokens, pos + 1, u[1..], k - 1);
      assert u[1..][k - 1] == u[k];
    }
  }

  lemma {:induction false} MatchesLength(tokens: seq<Token>, pos: nat, u: seq<Token>)
    requires Matches(tokens, pos, u)
    ensures pos + |u| <= |tokens|
    decreases |u|
  {
    if |u| > 0 {
      MatchesLength(tokens, pos + 1, u[1..]);
    }
  }

  lemma StartsExprIsNotStructural(t: Token)
    requires StartsExpr(t)
    ensures t.kind != EndOfFile && t.text != ")" && t.text != "}" && t.text != "def"
  {
    assert Lexer.IsAlnum(t.text[0]);
    assert ")"[0] == ')' && "}"[0] == '}' && "def"[0] == 'd';
    assert "def" in Lexer.Keywords;
  }

  lemma {:induction false} ExprFirstToken(e: Node, ops: set<string>)
    requires WellShapedExpr(e, ops)
    ensures |UnparseExpr(e)| > 0 && StartsExpr(UnparseExpr(e)[0])
  {
    match e
    case NumberNode(_) =>
    case IdentifierNode(_) =>
    case AssignmentNode(_, _) =>
    case FunctionCallNode(_, _) =>
    case BinaryOpNode(op, l, r) =>
      ExprFirstToken(l, ops);
      assert UnparseExpr(e)[0] == UnparseExpr(l)[0];
  }

  // One step of each rule, under the facts an unparsed tree provides

  lemma PrimaryNumberStep(tokens: seq<Token>, pos: nat, v: nat)
    requires ValidCursor(tokens, pos) && tokens[pos] == Token(Number, NatToDigits(v))
    ensures ParsePrimary(tokens, pos) == Ok((NumberNode(v), pos + 1))
  {
  }

  lemma PrimaryNameStep(tokens: seq<Token>, pos: nat, x: string)
    requires ValidCursor(tokens, pos) && tokens[pos] == Token(Identifier, x)
    requires tokens[pos + 1].text != "(" && tokens[pos + 1].text != "="
    ensures ParsePrimary(tokens, pos) == Ok((IdentifierNode(x), pos + 1))
  {
    PrimaryIdentifierDispatch(tokens, pos);
  }

  lemma PrimaryAssignStep(tokens: seq<Token>, pos: nat, x: string, v: Node, p: nat)
    requires ValidCursor(tokens, pos) && tokens[pos] == Token(Identifier, x)
    requires pos + 2 < |tokens| && tokens[pos + 1] == Sym("=")
    requires ParseExpression(tokens, pos + 2) == Ok((v, p))
    ensures ParsePrimary(tokens, pos) == Ok((AssignmentNode(x, v), p))
  {
    PrimaryIdentifierDispatch(tokens, pos);
  }

  lemma PrimaryCallStep(tokens: seq<Token>, pos: nat, f: string, args: seq<Node>, p: nat)
    requires ValidCursor(tokens, pos) && tokens[pos] == Token(Identifier, f)
    requires pos + 2 < |tokens| && tokens[pos + 1] == Sym("(")
    requires ParseArgs(tokens, pos + 2) == Ok((args, p))
    ensures ParsePrimary(tokens, pos) == Ok((FunctionCallNode(f, args), p + 1))
  {
    PrimaryIdentifierDispatch(tokens, pos);
  }

  lemma ArgsNilStep(tokens: seq<Token>, pos: nat)
    requires ValidCursor(tokens, pos) && tokens[pos] == Sym(")")
    ensures ParseArgs(tokens, pos) == Ok(([], pos))
  {
  }

  lemma ArgsConsStep(tokens: seq<Token>, pos: nat, a: Node, p1: nat, rest: seq<Node>, p3: nat)
    requires ValidCursor(tokens, pos) && tokens[pos].text != ")"
    requires ParseExpression(tokens, pos) == Ok((a, p1))
    requires p1 + 1 < |tokens| && tokens[p1] == Sym(",")
    requires ParseArgs(tokens, p1 + 1) == Ok((rest, p3))
    ensures ParseArgs(tokens, pos) == Ok(([a] + rest, p3))
  {
  }

  lemma ArgsLastStep(tokens: seq<Token>, pos: nat, a: Node, p1: nat)
    requires ValidCursor(tokens, pos) && tokens[pos].text != ")"
    requires ParseExpression(tokens, pos) == Ok((a, p1))
    requires p1 < |tokens| && tokens[p1] == Sym(")")
    ensures ParseArgs(tokens, pos) == Ok(([a], p1))
  {
    ArgsNilStep(tokens, p1);
    assert [a] + [] == [a];
  }

  lemma ParamsNilStep(tokens: seq<Token>, pos: nat)
    requires ValidCursor(tokens, pos) && tokens[pos] == Sym(")")
    ensures ParseParams(tokens, pos) == Ok(([], pos))
  {
  }

  lemma ParamsConsStep(tokens: seq<Token>, pos: nat, x: string, rest: seq<string>, p2: nat)
    requires ValidCursor(tokens, pos) && tokens[pos] == Token(Identifier, x) && x != ")"
    requires pos + 2 < |tokens| && tokens[pos + 1] == Sym(",")
    requires ParseParams(tokens, pos + 2) == Ok((rest, p2))
    ensures ParseParams(tokens, pos) == Ok(([x] + rest, p2))
  {
  }

  lemma ParamsLastStep(tokens: seq<Token>, pos: nat, x: string)
    requires ValidCursor(tokens, pos) && tokens[pos] == Token(Identifier, x) && x != ")"
    requires pos + 1 < |tokens| && tokens[pos + 1] == Sym(")")
    ensures ParseParams(tokens, pos) == Ok(([x], pos + 1))
  {
    ParamsNilStep(tokens, pos + 1);
    assert [x] + [] == [x];
  }

  /** The tokens an unparsed BinaryOp is made of, split at its operator. */
  lemma BinarySplit(e: Node, tokens: seq<Token>, pos: nat)
    requires e.BinaryOpNode? && Matches(tokens, pos, UnparseExpr(e))
    ensures pos + |UnparseExpr(e)| <= |tokens|
    ensures |UnparseExpr(e)| == |UnparseExpr(e.left)| + 1 + |UnparseExpr(e.right)|
    ensures Matches(tokens, pos, UnparseExpr(e.left))
    ensures tokens[pos + |UnparseExpr(e.left)|] == Sym(e.op)
    ensures Matches(tokens, pos + |UnparseExpr(e.left)| + 1, UnparseExpr(e.right))
  {
    var ul, ur := UnparseExpr(e.left), UnparseExpr(e.right);
    MatchesLength(tokens, pos, UnparseExpr(e));
    assert UnparseExpr(e) == ul + [Sym(e.op)] + ur;
    MatchesConcat(tokens, pos, ul + [Sym(e.op)], ur);
    MatchesConcat(tokens, pos, ul, [Sym(e.op)]);
    MatchesAt(tokens, pos + |ul|, [Sym(e.op)], 0);
  }

  /** The tokens of an unparsed assignment. */
  lemma AssignSplit(e: Node, tokens: seq<Token>, pos: nat)
    requires e.AssignmentNode? && Matches(tokens, pos, UnparseExpr(e))
    ensures pos + |UnparseExpr(e)| <= |tokens|
    ensures |UnparseExpr(e)| == 2 + |UnparseExpr(e.right)|
    ensures tokens[pos] == Token(Identifier, e.target) && tokens[pos + 1] == Sym("=")
    ensures Matches(tokens, pos + 2, UnparseExpr(e.right))
  {
    var head := [Token(Identifier, e.target), Sym("=")];
    MatchesLength(tokens, pos, UnparseExpr(e));
    assert UnparseExpr(e) == head + UnparseExpr(e.right);
    MatchesConcat(tokens, pos, head, UnparseExpr(e.right));
    MatchesAt(tokens, pos, head, 0);
    MatchesAt(tokens, pos, head, 1);
  }

  /** The tokens of an unparsed call. */
  lemma CallSplit(e: Node, tokens: seq<Token>, pos: nat)
    requires e.FunctionCallNode? && Matches(tokens, pos, UnparseExpr(e))
    ensures pos + |UnparseExpr(e)| <= |tokens|
    ensures |UnparseExpr(e)| == 3 + |UnparseArgs(e.arguments)|
    ensures tokens[pos] == Token(Identifier, e.functionName) && tokens[pos + 1] == Sym("(")
    ensures Matches(tokens, pos + 2, UnparseArgs(e.arguments) + [Sym(")")])
  {
    var head := [Token(Identifier, e.functionName), Sym("(")];
    MatchesLength(tokens, pos, UnparseExpr(e));
    var tail := UnparseArgs(e.arguments) + [Sym(")")];
    assert UnparseExpr(e) == head + tail;
    MatchesConcat(tokens, pos, head, tail);
    MatchesAt(tokens, pos, head, 0);
    MatchesAt(tokens, pos, head, 1);
  }

  /** The tokens of comma-separated arguments with more than one entry. */
  lemma ArgsSplit(args: seq<Node>, tokens: seq<Token>, pos: nat)
    requires |args| > 1 && Matches(tokens, pos, UnparseArgs(args) + [Sym(")")])
    ensures pos + |UnparseArgs(args)| < |tokens|
    ensures |UnparseArgs(args)| == |UnparseExpr(args[0])| + 1 + |UnparseArgs(args[1..])|
    ensures Matches(tokens, pos, UnparseExpr(args[0]))
    ensures tokens[pos + |UnparseExpr(args[0])|] == Sym(",")
    ensures Matches(tokens, pos + |UnparseExpr(args[0])| + 1, UnparseArgs(args[1..]) + [Sym(")")])
  {
    var u0, tail := UnparseExpr(args[0]), UnparseArgs(args[1..]) + [Sym(")")];
    MatchesLength(tokens, pos, UnparseArgs(args) + [Sym(")")]);
    AppendAssoc(u0 + [Sym(",")], UnparseArgs(args[1..]), [Sym(")")]);
    AppendAssoc(u0, [Sym(",")], tail);
    MatchesConcat(tokens, pos, u0, [Sym(",")] + tail);
    MatchesConcat(tokens, pos + |u0|, [Sym(",")], tail);
    MatchesAt(tokens, pos + |u0|, [Sym(",")], 0);
  }

  /** The tokens of a single argument. */
  lemma ArgsSingle(args: seq<Node>, tokens: seq<Token>, pos: nat)
    requires |args| == 1 && Matches(tokens, pos, UnparseArgs(args) + [Sym(")")])
    ensures UnparseArgs(args) == UnparseExpr(args[0])
    ensures pos + |UnparseArgs(args)| < |tokens|
    ensures Matches(tokens, pos, UnparseExpr(args[0]))
    ensures tokens[pos + |UnparseExpr(args[0])|] == Sym(")")
  {
    MatchesLength(tokens, pos, UnparseArgs(args) + [Sym(")")]);
    MatchesConcat(tokens, pos, UnparseExpr(args[0]), [Sym(")")]);
    MatchesAt(tokens, pos + |UnparseExpr(args[0])|, [Sym(")")], 0);
  }

  /** An operator is none of the tokens the lookahead and the loops test for. */
  lemma OperatorIsNotStructural(op: string)
    requires op in BinaryOperators
    ensures op != "(" && op != "=" && op != ")" && op != "," && op != ";" && op != "}"
  {
  }

  /** parseExpression reads back an unparsed expression and stops at the terminator. */
  lemma {:induction false} ExprRoundTrip(e: Node, ops: set<string>, tokens: seq<Token>, pos: nat, end: nat)
    requires ops <= BinaryOperators && WellTerminated(tokens) && WellShapedExpr(e, ops)
    requires Matches(tokens, pos, UnparseExpr(e)) && end == pos + |UnparseExpr(e)| && end < |tokens|
    requires Terminates(tokens[end])
    ensures ParseExpression(tokens, pos) == Ok((e, end))
    decreases e, 5
  {
    ExprFold(e, ops, tokens, pos, end);
    BinaryOpStep(tokens, e, end);
  }

  /** Reading an unparsed expression leaves the operator chain at its end
      with the whole expression as left operand. */
  lemma {:induction false} ExprFold(e: Node, ops: set<string>, tokens: seq<Token>, pos: nat, end: nat)
    requires ops <= BinaryOperators && WellTerminated(tokens) && WellShapedExpr(e, ops)
    requires Matches(tokens, pos, UnparseExpr(e)) && end == pos + |UnparseExpr(e)| && end < |tokens|
    requires CanFollow(e, tokens[end])
    ensures ParseExpression(tokens, pos) == ParseBinaryOp(tokens, e, end)
    decreases e, 4
  {
    if IsPrimary(e) {
      PrimaryRoundTrip(e, ops, tokens, pos, end);
    } else {
      BinaryFold(e, ops, tokens, pos, end);
    }
  }

  /** The BinaryOp case of `ExprFold`: the left operand's chain, then one
      more operator and primary. */
  lemma {:induction false} BinaryFold(e: Node, ops: set<string>, tokens: seq<Token>, pos: nat, end: nat)
    requires ops <= BinaryOperators && WellTerminated(tokens) && WellShapedExpr(e, ops) && e.BinaryOpNode?
    requires Matches(tokens, pos, UnparseExpr(e)) && end == pos + |UnparseExpr(e)| && end < |tokens|
    requires CanFollow(e, tokens[end])
    ensures ParseExpression(tokens, pos) == ParseBinaryOp(tokens, e, end)
    decreases e, 3
  {
    BinarySplit(e, tokens, pos);
    var endL := pos + |UnparseExpr(e.left)|;
    OperatorIsNotStructural(e.op);
    ExprFold(e.left, ops, tokens, pos, endL);
    PrimaryRoundTrip(e.right, ops, tokens, endL + 1, end);
    FoldStep(tokens, pos, e.left, e.op, e.right, endL, end);
  }

  /** One more operator and primary extend the chain read so far. */
  lemma FoldStep(tokens: seq<Token>, pos: nat, l: Node, op: string, r: Node, endL: nat, end: nat)
    requires ValidCursor(tokens, pos) && ValidCursor(tokens, endL)
    requires ParseExpression(tokens, pos) == ParseBinaryOp(tokens, l, endL)
    requires tokens[endL] == Sym(op) && op in BinaryOperators
    requires endL + 1 < |tokens| && ParsePrimary(tokens, endL + 1) == Ok((r, end))
    ensures ParseExpression(tokens, pos) == ParseBinaryOp(tokens, BinaryOpNode(op, l, r), end)
  {
    BinaryOpStep(tokens, l, endL);
  }

  /** parsePrimary reads back an unparsed primary. */
  lemma {:induction false} PrimaryRoundTrip(e: Node, ops: set<string>, tokens: seq<Token>, pos: nat, end: nat)
    requires ops <= BinaryOperators && WellTerminated(tokens) && WellShapedExpr(e, ops) && IsPrimary(e)
    requires Matches(tokens, pos, UnparseExpr(e)) && end == pos + |UnparseExpr(e)| && end < |tokens|
    requires CanFollow(e, tokens[end])
    ensures ParsePrimary(tokens, pos) == Ok((e, end))
    decreases e, 2
  {
    match e
    case NumberNode(v) =>
      MatchesAt(tokens, pos, UnparseExpr(e), 0);
      PrimaryNumberStep(tokens, pos, v);
    case IdentifierNode(x) =>
      MatchesAt(tokens, pos, UnparseExpr(e), 0);
      PrimaryNameStep(tokens, pos, x);
    case AssignmentNode(x, v) =>
      AssignRoundTrip(e, ops, tokens, pos, end);
    case FunctionCallNode(f, args) =>
      CallRoundTrip(e, ops, tokens, pos, end);
  }

  /** The assignment case of `PrimaryRoundTrip`. */
  lemma {:induction false} AssignRoundTrip(e: Node, ops: set<string>, tokens: seq<Token>, pos: nat, end: nat)
    requires ops <= BinaryOperators && WellTerminated(tokens) && WellShapedExpr(e, ops) && e.AssignmentNode?
    requires Matches(tokens, pos, UnparseExpr(e)) && end == pos + |UnparseExpr(e)| && end < |tokens|
    requires CanFollow(e, tokens[end])
    ensures ParsePrimary(tokens, pos) == Ok((e, end))
    decreases e, 1
  {
    AssignSplit(e, tokens, pos);
    ExprRoundTrip(e.right, ops, tokens, pos + 2, end);
    PrimaryAssignStep(tokens, pos, e.target, e.right, end);
  }

  /** The call case of `PrimaryRoundTrip`. */
  lemma {:induction false} CallRoundTrip(e: Node, ops: set<string>, tokens: seq<Token>, pos: nat, end: nat)
    requires ops <= BinaryOperators && WellTerminated(tokens) && WellShapedExpr(e, ops) && e.FunctionCallNode?
    requires Matches(tokens, pos, UnparseExpr(e)) && end == pos + |UnparseExpr(e)| && end < |tokens|
    ensures ParsePrimary(tokens, pos) == Ok((e, end))
    decreases e, 1
  {
    CallSplit(e, tokens, pos);
    ArgsRoundTrip(e.arguments, ops, tokens, pos + 2, end - 1);
    PrimaryCallStep(tokens, pos, e.functionName, e.arguments, end - 1);
  }

  /** The argument loop reads back comma-separated arguments up to `)`. */
  lemma {:induction false} ArgsRoundTrip(args: seq<Node>, ops: set<string>, tokens: seq<Token>, pos: nat, end: nat)
    requires ops <= BinaryOperators && WellTerminated(tokens) && forall i :: 0 <= i < |args| ==> WellShapedExpr(args[i], ops)
    requires Matches(tokens, pos, UnparseArgs(args) + [Sym(")")]) && end == pos + |UnparseArgs(args)|
    ensures ParseArgs(tokens, pos) == Ok((args, end))
    decreases args, 2
  {
    if |args| == 0 {
      assert UnparseArgs(args) + [Sym(")")] == [Sym(")")];
      MatchesAt(tokens, pos, [Sym(")")], 0);
      ArgsNilStep(tokens, pos);
    } else if |args| == 1 {
      LastArgRoundTrip(args, ops, tokens, pos, end);
    } else {
      ArgsConsRoundTrip(args, ops, tokens, pos, end);
    }
  }

  /** A single argument before `)`. */
  lemma {:induction false} LastArgRoundTrip(args: seq<Node>, ops: set<string>, tokens: seq<Token>, pos: nat, end: nat)
    requires ops <= BinaryOperators && WellTerminated(tokens) && |args| == 1 && WellShapedExpr(args[0], ops)
    requires Matches(tokens, pos, UnparseArgs(args) + [Sym(")")]) && end == pos + |UnparseArgs(args)|
    ensures ParseArgs(tokens, pos) == Ok((args, end))
    decreases args, 1
  {
    var a := args[0];
    ArgsSingle(args, tokens, pos);
    ExprFirstToken(a, ops);
    MatchesAt(tokens, pos, UnparseExpr(a), 0);
    StartsExprIsNotStructural(tokens[pos]);
    ExprRoundTrip(a, ops, tokens, pos, end);
    ArgsLastStep(tokens, pos, a, end);
    assert args == [a];
  }

  /** An argument, `,`, and the remaining arguments. */
  lemma {:induction false} ArgsConsRoundTrip(args: seq<Node>, ops: set<string>, tokens: seq<Token>, pos: nat, end: nat)
    requires ops <= BinaryOperators && WellTerminated(tokens) && |args| > 1 && forall i :: 0 <= i < |args| ==> WellShapedExpr(args[i], ops)
    requires Matches(tokens, pos, UnparseArgs(args) + [Sym(")")]) && end == pos + |UnparseArgs(args)|
    ensures ParseArgs(tokens, pos) == Ok((args, end))
    decreases args, 1
  {
    var endA := pos + |UnparseExpr(args[0])|;
    ArgsConsAt(args, ops, tokens, pos, end);
    ExprRoundTrip(args[0], ops, tokens, pos, endA);
    ArgsRoundTrip(args[1..], ops, tokens, endA + 1, end);
    ArgsConsFinish(args, tokens, pos, endA, end);
  }

  /** How written arguments divide at the first comma. */
  lemma ArgsConsAt(args: seq<Node>, ops: set<string>, tokens: seq<Token>, pos: nat, end: nat)
    requires ops <= BinaryOperators && WellTerminated(tokens) && |args| > 1 && forall i :: 0 <= i < |args| ==> WellShapedExpr(args[i], ops)
    requires Matches(tokens, pos, UnparseArgs(args) + [Sym(")")]) && end == pos + |UnparseArgs(args)|
    ensures WellShapedExpr(args[0], ops)
    ensures Matches(tokens, pos, UnparseExpr(args[0])) && pos + |UnparseExpr(args[0])| < |tokens|
    ensures Terminates(tokens[pos + |UnparseExpr(args[0])|])
    ensures forall i :: 0 <= i < |args[1..]| ==> WellShapedExpr(args[1..][i], ops)
    ensures Matches(tokens, pos + |UnparseExpr(args[0])| + 1, UnparseArgs(args[1..]) + [Sym(")")])
    ensures end == pos + |UnparseExpr(args[0])| + 1 + |UnparseArgs(args[1..])|
    ensures ValidCursor(tokens, pos) && tokens[pos].text != ")"
    ensures tokens[pos + |UnparseExpr(args[0])|] == Sym(",")
  {
    var a, rest := args[0], args[1..];
    ArgsSplit(args, tokens, pos);
    ExprFirstToken(a, ops);
    MatchesAt(tokens, pos, UnparseExpr(a), 0);
    StartsExprIsNotStructural(tokens[pos]);
    forall i | 0 <= i < |rest| ensures WellShapedExpr(rest[i], ops) {
      assert rest[i] == args[i + 1];
    }
  }

  lemma ArgsConsFinish(args: seq<Node>, tokens: seq<Token>, pos: nat, endA: nat, end: nat)
    requires |args| > 1 && ValidCursor(tokens, pos) && tokens[pos].text != ")"
    requires ParseExpression(tokens, pos) == Ok((args[0], endA))
    requires endA + 1 < |tokens| && tokens[endA] == Sym(",")
    requires ParseArgs(tokens, endA + 1) == Ok((args[1..], end))
    ensures ParseArgs(tokens, pos) == Ok((args, end))
  {
    ArgsConsStep(tokens, pos, args[0], endA, args[1..], end);
    assert args == [args[0]] + args[1..];
  }

  /** The tokens of comma-separated parameter names. */
  lemma ParamsSplit(ps: seq<string>, tokens: seq<Token>, pos: nat)
    requires |ps| > 0 && Matches(tokens, pos, UnparseParams(ps) + [Sym(")")])
    ensures pos + |UnparseParams(ps)| < |tokens|
    ensures tokens[pos] == Token(Identifier, ps[0])
    ensures |ps| == 1 ==> |UnparseParams(ps)| == 1 && tokens[pos + 1] == Sym(")")
    ensures |ps| > 1 ==>
              |UnparseParams(ps)| == 2 + |UnparseParams(ps[1..])| && tokens[pos + 1] == Sym(",") &&
              Matches(tokens, pos + 2, UnparseParams(ps[1..]) + [Sym(")")])
  {
    var u := UnparseParams(ps) + [Sym(")")];
    MatchesLength(tokens, pos, u);
    MatchesAt(tokens, pos, u, 0);
    MatchesAt(tokens, pos, u, 1);
    if |ps| > 1 {
      var head, tail := [Token(Identifier, ps[0]), Sym(",")], UnparseParams(ps[1..]) + [Sym(")")];
      assert u == head + tail;
      MatchesConcat(tokens, pos, head, tail);
    }
  }

  /** The parameter loop reads back comma-separated names up to `)`. */
  lemma {:induction false} ParamsRoundTrip(ps: seq<string>, tokens: seq<Token>, pos: nat)
    requires WellTerminated(tokens) && forall i :: 0 <= i < |ps| ==> IsName(ps[i])
    requires Matches(tokens, pos, UnparseParams(ps) + [Sym(")")])
    ensures ParseParams(tokens, pos) == Ok((ps, pos + |UnparseParams(ps)|))
    ensures tokens[pos + |UnparseParams(ps)|] == Sym(")")
    decreases ps
  {
    if |ps| == 0 {
      assert UnparseParams(ps) + [Sym(")")] == [Sym(")")];
      MatchesAt(tokens, pos, [Sym(")")], 0);
      ParamsNilStep(tokens, pos);
    } else {
      ParamsSplit(ps, tokens, pos);
      StartsExprIsNotStructural(Token(Identifier, ps[0]));
      if |ps| == 1 {
        ParamsLastStep(tokens, pos, ps[0]);
        assert ps == [ps[0]];
      } else {
        var rest := ps[1..];
        ParamsRoundTrip(rest, tokens, pos + 2);
        ParamsConsStep(tokens, pos, ps[0], rest, pos + |UnparseParams(ps)|);
        assert ps == [ps[0]] + rest;
      }
    }
  }

  // Statements

  lemma StatementExprStep(tokens: seq<Token>, pos: nat, e: Node, p1: nat)
    requires ValidCursor(tokens, pos) && tokens[pos].text != "def"
    requires ParseExpression(tokens, pos) == Ok((e, p1))
    requires p1 < |tokens| && tokens[p1] == Sym(";")
    ensures ParseStatement(tokens, pos) == Ok((e, p1 + 1))
  {
  }

  lemma FunctionStep(tokens: seq<Token>, pos: nat, f: string, ps: seq<string>, p3: nat, body: seq<Node>, p6: nat)
    requires ValidCursor(tokens, pos) && tokens[pos] == Token(Keyword, "def")
    requires pos + 3 < |tokens| && tokens[pos + 1] == Token(Identifier, f) && tokens[pos + 2] == Sym("(")
    requires ParseParams(tokens, pos + 3) == Ok((ps, p3))
    requires p3 + 2 < |tokens| && tokens[p3 + 1] == Sym("{")
    requires ParseBody(tokens, p3 + 2) == Ok((body, p6))
    ensures ParseStatement(tokens, pos) == Ok((FunctionNode(f, ps, body), p6 + 1))
  {
  }

  lemma BodyNilStep(tokens: seq<Token>, pos: nat)
    requires ValidCursor(tokens, pos) && tokens[pos] == Sym("}")
    ensures ParseBody(tokens, pos) == Ok(([], pos))
  {
  }

  lemma BodyConsStep(tokens: seq<Token>, pos: nat, s: Node, p1: nat, rest: seq<Node>, p2: nat)
    requires ValidCursor(tokens, pos) && tokens[pos].text != "}"
    requires ParseStatement(tokens, pos) == Ok((s, p1))
    requires p1 < |tokens| && ParseBody(tokens, p1) == Ok((rest, p2))
    ensures ParseBody(tokens, pos) == Ok(([s] + rest, p2))
  {
  }

  lemma ListNilStep(tokens: seq<Token>, pos: nat)
    requires ValidCursor(tokens, pos) && tokens[pos].kind == EndOfFile
    ensures StatementList(tokens, pos) == Ok(([], pos))
  {
  }

  lemma ListConsStep(tokens: seq<Token>, pos: nat, s: Node, p1: nat, rest: seq<Node>, p2: nat)
    requires ValidCursor(tokens, pos) && tokens[pos].kind != EndOfFile
    requires ParseStatement(tokens, pos) == Ok((s, p1))
    requires p1 < |tokens| && StatementList(tokens, p1) == Ok((rest, p2))
    ensures StatementList(tokens, pos) == Ok(([s] + rest, p2))
  {
  }

  /** A written statement starts with `def` or with the first token of its expression. */
  lemma StmtFirstToken(s: Node, ops: set<string>)
    requires WellShapedStmt(s, ops)
    ensures |UnparseStmt(s)| > 0
    ensures UnparseStmt(s)[0].kind != EndOfFile && UnparseStmt(s)[0].text != "}"
    ensures s.FunctionNode? <==> UnparseStmt(s)[0].text == "def"
  {
    if !s.FunctionNode? {
      ExprFirstToken(s, ops);
      assert UnparseStmt(s)[0] == UnparseExpr(s)[0];
      StartsExprIsNotStructural(UnparseExpr(s)[0]);
    } else {
      assert "def"[0] != "}"[0];
    }
  }

  /** The tokens of an expression statement. */
  lemma ExprStmtSplit(s: Node, tokens: seq<Token>, pos: nat)
    requires !s.FunctionNode? && Matches(tokens, pos, UnparseStmt(s))
    ensures pos + |UnparseStmt(s)| <= |tokens|
    ensures |UnparseStmt(s)| == |UnparseExpr(s)| + 1
    ensures Matches(tokens, pos, UnparseExpr(s))
    ensures tokens[pos + |UnparseExpr(s)|] == Sym(";")
  {
    MatchesLength(tokens, pos, UnparseStmt(s));
    MatchesConcat(tokens, pos, UnparseExpr(s), [Sym(";")]);
    MatchesAt(tokens, pos + |UnparseExpr(s)|, [Sym(";")], 0);
  }

  /** The tokens of a definition. */
  lemma FunctionSplit(s: Node, tokens: seq<Token>, pos: nat)
    requires s.FunctionNode? && Matches(tokens, pos, UnparseStmt(s))
    ensures pos + |UnparseStmt(s)| <= |tokens|
    ensures |UnparseStmt(s)| == 6 + |UnparseParams(s.parameters)| + |UnparseStmts(s.body)|
    ensures tokens[pos] == Token(Keyword, "def") && tokens[pos + 1] == Token(Identifier, s.name)
    ensures tokens[pos + 2] == Sym("(")
    ensures Matches(tokens, pos + 3, UnparseParams(s.parameters) + [Sym(")")])
    ensures tokens[pos + 4 + |UnparseParams(s.parameters)|] == Sym("{")
    ensures Matches(tokens, pos + 5 + |UnparseParams(s.parameters)|, UnparseStmts(s.body) + [Sym("}")])
  {
    var head := [Token(Keyword, "def"), Token(Identifier, s.name), Sym("(")];
    var params := UnparseParams(s.parameters) + [Sym(")")];
    var body := UnparseStmts(s.body) + [Sym("}")];
    FunctionTokens(s);
    MatchesLength(tokens, pos, UnparseStmt(s));
    MatchesConcat(tokens, pos, head, params + ([Sym("{")] + body));
    MatchesAt(tokens, pos, head, 0);
    MatchesAt(tokens, pos, head, 1);
    MatchesAt(tokens, pos, head, 2);
    MatchesConcat(tokens, pos + 3, params, [Sym("{")] + body);
    MatchesConcat(tokens, pos + 3 + |params|, [Sym("{")], body);
    MatchesAt(tokens, pos + 3 + |params|, [Sym("{")], 0);
  }

  /** A written definition regrouped at the pieces its parse reads one by one. */
  lemma FunctionTokens(s: Node)
    requires s.FunctionNode?
    ensures UnparseStmt(s) == [Token(Keyword, "def"), Token(Identifier, s.name), Sym("(")] +
      ((UnparseParams(s.parameters) + [Sym(")")]) + ([Sym("{")] + (UnparseStmts(s.body) + [Sym("}")])))
  {
    var h, p, b := [Token(Keyword, "def"), Token(Identifier, s.name), Sym("(")], UnparseParams(s.parameters), UnparseStmts(s.body);
    var c, e := [Sym(")"), Sym("{")], [Sym("}")];
    assert UnparseStmt(s) == (((h + p) + c) + b) + e;
    AppendAssoc((h + p) + c, b, e);
    AppendAssoc(h + p, c, b + e);
    AppendAssoc(h, p, c + (b + e));
    assert c == [Sym(")")] + [Sym("{")];
    AppendAssoc([Sym(")")], [Sym("{")], b + e);
    AppendAssoc(p, [Sym(")")], [Sym("{")] + (b + e));
  }

  /** The tokens of a statement list followed by `tail`. */
  lemma StmtsSplit(ss: seq<Node>, tokens: seq<Token>, pos: nat, tail: seq<Token>)
    requires |ss| > 0 && Matches(tokens, pos, UnparseStmts(ss) + tail)
    ensures |UnparseStmts(ss)| == |UnparseStmt(ss[0])| + |UnparseStmts(ss[1..])|
    ensures Matches(tokens, pos, UnparseStmt(ss[0]))
    ensures Matches(tokens, pos + |UnparseStmt(ss[0])|, UnparseStmts(ss[1..]) + tail)
  {
    StmtsConcat(ss, tail);
    MatchesConcat(tokens, pos, UnparseStmt(ss[0]), UnparseStmts(ss[1..]) + tail);
  }

  lemma StmtsConcat(ss: seq<Node>, tail: seq<Token>)
    requires |ss| > 0
    ensures UnparseStmts(ss) + tail == UnparseStmt(ss[0]) + (UnparseStmts(ss[1..]) + tail)
  {
    assert UnparseStmts(ss) == UnparseStmt(ss[0]) + UnparseStmts(ss[1..]);
    AppendAssoc(UnparseStmt(ss[0]), UnparseStmts(ss[1..]), tail);
  }

  /** parseStatement reads back a written statement. */
  lemma {:induction false} StmtRoundTrip(s: Node, ops: set<string>, tokens: seq<Token>, pos: nat, end: nat)
    requires ops <= BinaryOperators && WellTerminated(tokens) && WellShapedStmt(s, ops)
    requires Matches(tokens, pos, UnparseStmt(s)) && end == pos + |UnparseStmt(s)| && end < |tokens|
    ensures ParseStatement(tokens, pos) == Ok((s, end))
    decreases s, 2
  {
    if s.FunctionNode? {
      FunctionRoundTrip(s, ops, tokens, pos, end);
    } else {
      ExprStmtRoundTrip(s, ops, tokens, pos, end);
    }
  }

  /** An expression statement: the expression, then `;`. */
  lemma ExprStmtRoundTrip(s: Node, ops: set<string>, tokens: seq<Token>, pos: nat, end: nat)
    requires ops <= BinaryOperators && WellTerminated(tokens) && WellShapedStmt(s, ops) && !s.FunctionNode?
    requires Matches(tokens, pos, UnparseStmt(s)) && end == pos + |UnparseStmt(s)| && end < |tokens|
    ensures ParseStatement(tokens, pos) == Ok((s, end))
  {
    ExprStmtSplit(s, tokens, pos);
    StmtFirstToken(s, ops);
    MatchesAt(tokens, pos, UnparseStmt(s), 0);
    OperatorsAreNotSemicolon();
    ExprRoundTrip(s, ops, tokens, pos, end - 1);
    StatementExprStep(tokens, pos, s, end - 1);
  }

  lemma OperatorsAreNotSemicolon()
    ensures ";" !in BinaryOperators && ";" != "(" && ";" != "="
  {
  }

  /** A definition: `def`, name, `(`, parameters, `)`, `{`, body, `}`. */
  lemma {:induction false} FunctionRoundTrip(s: Node, ops: set<string>, tokens: seq<Token>, pos: nat, end: nat)
    requires ops <= BinaryOperators && WellTerminated(tokens) && WellShapedStmt(s, ops) && s.FunctionNode?
    requires Matches(tokens, pos, UnparseStmt(s)) && end == pos + |UnparseStmt(s)| && end < |tokens|
    ensures ParseStatement(tokens, pos) == Ok((s, end))
    decreases s, 1
  {
    FunctionBodyAt(s, ops, tokens, pos, end);
    BodyRoundTrip(s.body, ops, tokens, pos + 5 + |UnparseParams(s.parameters)|, end - 1);
    FunctionFinish(s, tokens, pos, end);
  }

  /** Where the body of a written definition lies. */
  lemma FunctionBodyAt(s: Node, ops: set<string>, tokens: seq<Token>, pos: nat, end: nat)
    requires WellShapedStmt(s, ops) && s.FunctionNode?
    requires Matches(tokens, pos, UnparseStmt(s)) && end == pos + |UnparseStmt(s)|
    ensures forall i :: 0 <= i < |s.body| ==> WellShapedStmt(s.body[i], ops)
    ensures Matches(tokens, pos + 5 + |UnparseParams(s.parameters)|, UnparseStmts(s.body) + [Sym("}")])
    ensures end - 1 == pos + 5 + |UnparseParams(s.parameters)| + |UnparseStmts(s.body)|
  {
    FunctionSplit(s, tokens, pos);
  }

  /** Once the body is read back, so is the whole definition. */
  lemma FunctionFinish(s: Node, tokens: seq<Token>, pos: nat, end: nat)
    requires WellTerminated(tokens) && s.FunctionNode? && (forall i :: 0 <= i < |s.parameters| ==> IsName(s.parameters[i]))
    requires Matches(tokens, pos, UnparseStmt(s)) && end == pos + |UnparseStmt(s)| && end < |tokens|
    requires ParseBody(tokens, pos + 5 + |UnparseParams(s.parameters)|) == Ok((s.body, end - 1))
    ensures ParseStatement(tokens, pos) == Ok((s, end))
  {
    FunctionHeadAt(s, tokens, pos, end);
    FunctionStep(tokens, pos, s.name, s.parameters, pos + 3 + |UnparseParams(s.parameters)|, s.body, end - 1);
  }

  /** The head of a written definition, up to `{`, and its parameters read back. */
  lemma FunctionHeadAt(s: Node, tokens: seq<Token>, pos: nat, end: nat)
    requires WellTerminated(tokens) && s.FunctionNode? && (forall i :: 0 <= i < |s.parameters| ==> IsName(s.parameters[i]))
    requires Matches(tokens, pos, UnparseStmt(s)) && end == pos + |UnparseStmt(s)| && end < |tokens|
    ensures ValidCursor(tokens, pos) && tokens[pos] == Token(Keyword, "def")
    ensures pos + 3 < |tokens| && tokens[pos + 1] == Token(Identifier, s.name) && tokens[pos + 2] == Sym("(")
    ensures ParseParams(tokens, pos + 3) == Ok((s.parameters, pos + 3 + |UnparseParams(s.parameters)|))
    ensures pos + 5 + |UnparseParams(s.parameters)| < |tokens| && tokens[pos + 4 + |UnparseParams(s.parameters)|] == Sym("{")
  {
    FunctionSplit(s, tokens, pos);
    ParamsRoundTrip(s.parameters, tokens, pos + 3);
  }

  /** The body loop reads back written statements up to `}`. */
  lemma {:induction false} BodyRoundTrip(ss: seq<Node>, ops: set<string>, tokens: seq<Token>, pos: nat, end: nat)
    requires ops <= BinaryOperators && WellTerminated(tokens) && forall i :: 0 <= i < |ss| ==> WellShapedStmt(ss[i], ops)
    requires Matches(tokens, pos, UnparseStmts(ss) + [Sym("}")]) && end == pos + |UnparseStmts(ss)|
    ensures ParseBody(tokens, pos) == Ok((ss, end))
    decreases ss, 3
  {
    if |ss| == 0 {
      assert UnparseStmts(ss) + [Sym("}")] == [Sym("}")];
      MatchesAt(tokens, pos, [Sym("}")], 0);
      BodyNilStep(tokens, pos);
    } else {
      BodyConsRoundTrip(ss, ops, tokens, pos, end);
    }
  }

  lemma {:induction false} BodyConsRoundTrip(ss: seq<Node>, ops: set<string>, tokens: seq<Token>, pos: nat, end: nat)
    requires ops <= BinaryOperators && WellTerminated(tokens) && |ss| > 0
    requires forall i :: 0 <= i < |ss| ==> WellShapedStmt(ss[i], ops)
    requires Matches(tokens, pos, UnparseStmts(ss) + [Sym("}")]) && end == pos + |UnparseStmts(ss)|
    ensures ParseBody(tokens, pos) == Ok((ss, end))
    decreases ss, 2
  {
    var endS := pos + |UnparseStmt(ss[0])|;
    StmtsConsAt(ss, ops, tokens, pos, [Sym("}")]);
    StmtRoundTrip(ss[0], ops, tokens, pos, endS);
    BodyRoundTrip(ss[1..], ops, tokens, endS, end);
    BodyConsFinish(ss, tokens, pos, endS, end);
  }

  /** How a written statement list with `tail` after it divides at its first statement. */
  lemma StmtsConsAt(ss: seq<Node>, ops: set<string>, tokens: seq<Token>, pos: nat, tail: seq<Token>)
    requires WellTerminated(tokens) && |ss| > 0 && |tail| > 0
    requires forall i :: 0 <= i < |ss| ==> WellShapedStmt(ss[i], ops)
    requires Matches(tokens, pos, UnparseStmts(ss) + tail)
    ensures WellShapedStmt(ss[0], ops)
    ensures Matches(tokens, pos, UnparseStmt(ss[0])) && pos + |UnparseStmt(ss[0])| < |tokens|
    ensures forall i :: 0 <= i < |ss[1..]| ==> WellShapedStmt(ss[1..][i], ops)
    ensures Matches(tokens, pos + |UnparseStmt(ss[0])|, UnparseStmts(ss[1..]) + tail)
    ensures pos + |UnparseStmts(ss)| == pos + |UnparseStmt(ss[0])| + |UnparseStmts(ss[1..])|
    ensures ValidCursor(tokens, pos) && tokens[pos].kind != EndOfFile && tokens[pos].text != "}"
  {
    var endS := pos + |UnparseStmt(ss[0])|;
    StmtsSplit(ss, tokens, pos, tail);
    MatchesLength(tokens, endS, UnparseStmts(ss[1..]) + tail);
    StmtFirstToken(ss[0], ops);
    MatchesAt(tokens, pos, UnparseStmt(ss[0]), 0);
    StmtsTail(ss, ops);
  }

  lemma BodyConsFinish(ss: seq<Node>, tokens: seq<Token>, pos: nat, endS: nat, end: nat)
    requires |ss| > 0 && ValidCursor(tokens, pos) && tokens[pos].text != "}"
    requires ParseStatement(tokens, pos) == Ok((ss[0], endS))
    requires endS < |tokens| && ParseBody(tokens, endS) == Ok((ss[1..], end))
    ensures ParseBody(tokens, pos) == Ok((ss, end))
  {
    BodyConsStep(tokens, pos, ss[0], endS, ss[1..], end);
    assert ss == [ss[0]] + ss[1..];
  }

  lemma StmtsTail(ss: seq<Node>, ops: set<string>)
    requires |ss| > 0 && forall i :: 0 <= i < |ss| ==> WellShapedStmt(ss[i], ops)
    ensures forall i :: 0 <= i < |ss[1..]| ==> WellShapedStmt(ss[1..][i], ops)
  {
    forall i | 0 <= i < |ss[1..]| ensures WellShapedStmt(ss[1..][i], ops) {
      assert ss[1..][i] == ss[i + 1];
    }
  }

  /** The loop of parseStatements reads back written statements up to END_OF_FILE. */
  lemma {:induction false} StatementListRoundTrip(ss: seq<Node>, ops: set<string>, tokens: seq<Token>, pos: nat, end: nat)
    requires ops <= BinaryOperators && WellTerminated(tokens) && forall i :: 0 <= i < |ss| ==> WellShapedStmt(ss[i], ops)
    requires Matches(tokens, pos, UnparseStmts(ss) + [Eof]) && end == pos + |UnparseStmts(ss)|
    ensures StatementList(tokens, pos) == Ok((ss, end))
    decreases ss, 1
  {
    if |ss| == 0 {
      assert UnparseStmts(ss) + [Eof] == [Eof];
      MatchesAt(tokens, pos, [Eof], 0);
      ListNilStep(tokens, pos);
    } else {
      ListConsRoundTrip(ss, ops, tokens, pos, end);
    }
  }

  lemma {:induction false} ListConsRoundTrip(ss: seq<Node>, ops: set<string>, tokens: seq<Token>, pos: nat, end: nat)
    requires ops <= BinaryOperators && WellTerminated(tokens) && |ss| > 0
    requires forall i :: 0 <= i < |ss| ==> WellShapedStmt(ss[i], ops)
    requires Matches(tokens, pos, UnparseStmts(ss) + [Eof]) && end == pos + |UnparseStmts(ss)|
    ensures StatementList(tokens, pos) == Ok((ss, end))
    decreases ss, 0
  {
    var endS := pos + |UnparseStmt(ss[0])|;
    StmtsConsAt(ss, ops, tokens, pos, [Eof]);
    StmtRoundTrip(ss[0], ops, tokens, pos, endS);
    StatementListRoundTrip(ss[1..], ops, tokens, endS, end);
    ListConsFinish(ss, tokens, pos, endS, end);
  }

  lemma ListConsFinish(ss: seq<Node>, tokens: seq<Token>, pos: nat, endS: nat, end: nat)
    requires |ss| > 0 && ValidCursor(tokens, pos) && tokens[pos].kind != EndOfFile
    requires ParseStatement(tokens, pos) == Ok((ss[0], endS))
    requires endS < |tokens| && StatementList(tokens, endS) == Ok((ss[1..], end))
    ensures StatementList(tokens, pos) == Ok((ss, end))
  {
    ListConsStep(tokens, pos, ss[0], endS, ss[1..], end);
    assert ss == [ss[0]] + ss[1..];
  }

  // ---------------------------------------------------------------------
  // What the writer emits
  // ---------------------------------------------------------------------

  lemma AllEmittedConcat(a: seq<Token>, b: seq<Token>, ops: set<string>)
    requires AllEmitted(a, ops) && AllEmitted(b, ops)
    ensures AllEmitted(a + b, ops)
  {
    forall i | 0 <= i < |a + b| ensures Emitted((a + b)[i], ops) {
      if i >= |a| {
        assert (a + b)[i] == b[i - |a|];
      }
    }
  }

  lemma {:induction false} ExprEmitted(e: Node, ops: set<string>)
    requires WellShapedExpr(e, ops)
    ensures AllEmitted(UnparseExpr(e), ops)
    decreases e, 1
  {
    match e
    case NumberNode(v) =>
    case IdentifierNode(x) =>
    case BinaryOpNode(op, l, r) =>
      ExprEmitted(l, ops);
      ExprEmitted(r, ops);
      AllEmittedConcat(UnparseExpr(l), [Sym(op)], ops);
      AllEmittedConcat(UnparseExpr(l) + [Sym(op)], UnparseExpr(r), ops);
    case AssignmentNode(x, v) =>
      ExprEmitted(v, ops);
      AllEmittedConcat([Token(Identifier, x), Sym("=")], UnparseExpr(v), ops);
    case FunctionCallNode(f, args) =>
      ArgsEmitted(args, ops);
      AllEmittedConcat([Token(Identifier, f), Sym("(")], UnparseArgs(args), ops);
      AllEmittedConcat([Token(Identifier, f), Sym("(")] + UnparseArgs(args), [Sym(")")], ops);
  }

  lemma {:induction false} ArgsEmitted(args: seq<Node>, ops: set<string>)
    requires forall i :: 0 <= i < |args| ==> WellShapedExpr(args[i], ops)
    ensures AllEmitted(UnparseArgs(args), ops)
    decreases args, 0
  {
    if |args| == 1 {
      ExprEmitted(args[0], ops);
    } else if |args| > 1 {
      ExprEmitted(args[0], ops);
      assert forall i :: 0 <= i < |args[1..]| ==> WellShapedExpr(args[1..][i], ops) by {
        forall i | 0 <= i < |args[1..]| ensures WellShapedExpr(args[1..][i], ops) {
          assert args[1..][i] == args[i + 1];
        }
      }
      ArgsEmitted(args[1..], ops);
      AllEmittedConcat(UnparseExpr(args[0]), [Sym(",")], ops);
      AllEmittedConcat(UnparseExpr(args[0]) + [Sym(",")], UnparseArgs(args[1..]), ops);
    }
  }

  lemma {:induction false} ParamsEmitted(ps: seq<string>, ops: set<string>)
    requires forall i :: 0 <= i < |ps| ==> IsName(ps[i])
    ensures AllEmitted(UnparseParams(ps), ops)
    decreases ps
  {
    if |ps| > 1 {
      ParamsEmitted(ps[1..], ops);
      AllEmittedConcat([Token(Identifier, ps[0]), Sym(",")], UnparseParams(ps[1..]), ops);
    }
  }

  lemma {:induction false} StmtEmitted(s: Node, ops: set<string>)
    requires WellShapedStmt(s, ops)
    ensures AllEmitted(UnparseStmt(s), ops)
    decreases s, 1
  {
    if s.FunctionNode? {
      var head := [Token(Keyword, "def"), Token(Identifier, s.name), Sym("(")];
      ParamsEmitted(s.parameters, ops);
      StmtsEmitted(s.body, ops);
      AllEmittedConcat(head, UnparseParams(s.parameters), ops);
      AllEmittedConcat(head + UnparseParams(s.parameters), [Sym(")"), Sym("{")], ops);
      AllEmittedConcat(head + UnparseParams(s.parameters) + [Sym(")"), Sym("{")], UnparseStmts(s.body), ops);
      AllEmittedConcat(head + UnparseParams(s.parameters) + [Sym(")"), Sym("{")] + UnparseStmts(s.body), [Sym("}")], ops);
    } else {
      ExprEmitted(s, ops);
      AllEmittedConcat(UnparseExpr(s), [Sym(";")], ops);
    }
  }

  lemma {:induction false} StmtsEmitted(ss: seq<Node>, ops: set<string>)
    requires forall i :: 0 <= i < |ss| ==> WellShapedStmt(ss[i], ops)
    ensures AllEmitted(UnparseStmts(ss), ops)
    decreases ss, 0
  {
    if |ss| > 0 {
      StmtEmitted(ss[0], ops);
      StmtsTail(ss, ops);
      StmtsEmitted(ss[1..], ops);
      AllEmittedConcat(UnparseStmt(ss[0]), UnparseStmts(ss[1..]), ops);
    }
  }

  /** With one-character operators every emitted token is one the tokenizer
      can produce. */
  lemma EmittedIsScannable(t: Token)
    requires Emitted(t, ScannedOperators)
    ensures Lexer.Scannable(t)
  {
    if t.kind == Keyword {
      assert t.text == "def" && "def" in Lexer.Keywords;
      assert Lexer.IsWordText("def");
    } else if t.kind == Symbol {
      assert t.text in Punctuation + ScannedOperators;
    }
  }

  lemma {:induction false} EmittedAreScannable(ts: seq<Token>)
    requires AllEmitted(ts, ScannedOperators)
    ensures Lexer.AllScannable(ts)
    decreases |ts|
  {
    if |ts| > 0 {
      EmittedIsScannable(ts[0]);
      assert AllEmitted(ts[1..], ScannedOperators) by {
        forall i | 0 <= i < |ts[1..]| ensures Emitted(ts[1..][i], ScannedOperators) {
          assert ts[1..][i] == ts[i + 1];
        }
      }
      EmittedAreScannable(ts[1..]);
    }
  }

  // ---------------------------------------------------------------------
  // The whole front end
  // ---------------------------------------------------------------------

  lemma {:induction false} MatchesSuffix(tokens: seq<Token>, pos: nat)
    requires pos <= |tokens|
    ensures Matches(tokens, pos, tokens[pos..])
    decreases |tokens| - pos
  {
    if pos < |tokens| {
      assert tokens[pos..][1..] == tokens[pos + 1..];
      MatchesSuffix(tokens, pos + 1);
    }
  }

  /** Parsing the written tokens of a program gives the program back. */
  lemma ParseUnparse(program: seq<Node>, ops: set<string>)
    requires ops <= BinaryOperators && WellShapedStmts(program, ops)
    ensures WellTerminated(Unparse(program))
    ensures Parse(Unparse(program)) == Ok(BlockNode(program))
  {
    var u := UnparseStmts(program);
    var tokens := Unparse(program);
    StmtsEmitted(program, ops);
    assert forall i :: 0 <= i < |tokens| - 1 ==> tokens[i] == u[i];
    MatchesSuffix(tokens, 0);
    assert tokens[0..] == u + [Eof];
    StatementListRoundTrip(program, ops, tokens, 0, |u|);
  }

  /** Tokenizing the rendered program and parsing the tokens gives the
      program back, for programs whose operators the tokenizer can produce. */
  lemma SourceRoundTrip(program: seq<Node>)
    requires WellShapedStmts(program, ScannedOperators)
    ensures WellTerminated(Lexer.Lex(Lexer.Render(UnparseStmts(program))))
    ensures Parse(Lexer.Lex(Lexer.Render(UnparseStmts(program)))) == Ok(BlockNode(program))
  {
    StmtsEmitted(program, ScannedOperators);
    EmittedAreScannable(UnparseStmts(program));
    Lexer.LexRender(UnparseStmts(program));
    ParseUnparse(program, ScannedOperators);
  }

  /** Whatever source text parses, its tree never holds `<<` or `>>`: the
      tokenizer cannot produce them, so those two parser operators are dead. */
  lemma ScannedProgramsUseScannedOperators(source: string)
    ensures WellTerminated(Lexer.Lex(source))
    ensures Parse(Lexer.Lex(source)).Ok? ==> OperatorsIn(Parse(Lexer.Lex(source)).value, ScannedOperators)
  {
    var tokens := Lexer.Lex(source);
    Lexer.LexEndsWithEof(source);
    Lexer.LexHasNoShiftTokens(source);
    assert OperatorTexts(tokens) <= ScannedOperators;
    var r := Parse(tokens);
    if r.Ok? {
      OperatorsInMono(r.value, OperatorTexts(tokens), ScannedOperators);
    }
  }

  // ---------------------------------------------------------------------
  // The parser's sample program
  // ---------------------------------------------------------------------

  /** The token vector the parser's sample driver builds, closed here by
      the END_OF_FILE token that the tokenizer always appends. */
  const SampleTokens: seq<Token> := [
    Token(Keyword, "def"), Token(Identifier, "myFunc"), Sym("("),
    Token(Identifier, "a"), Sym(","), Token(Identifier, "b"), Sym(")"), Sym("{"),
    Token(Identifier, "x"), Sym("="), Token(Number, "10"), Sym(";"), Sym("}"),
    Token(Identifier, "myFunc"), Sym("("), Token(Number, "5"), Sym(","), Token(Number, "15"), Sym(")"), Sym(";"),
    Eof]

  /** A definition of `myFunc(a, b)` whose body assigns 10 to `x`, then a call `myFunc(5, 15)`. */
  const SampleProgram: seq<Node> := [
    FunctionNode("myFunc", ["a", "b"], [AssignmentNode("x", NumberNode(10))]),
    FunctionCallNode("myFunc", [NumberNode(5), NumberNode(15)])]

  lemma SampleParses()
    ensures WellTerminated(SampleTokens)
    ensures Parse(SampleTokens) == Ok(BlockNode(SampleProgram))
  {
    SampleWellShaped();
    SampleUnparses();
    ParseUnparse(SampleProgram, {});
  }

  lemma SampleWellShaped()
    ensures WellShapedStmts(SampleProgram, {})
  {
    assert IsName("myFunc") && IsName("a") && IsName("b") && IsName("x");
  }

  lemma SampleDigits()
    ensures NatToDigits(5) == "5" && NatToDigits(10) == "10" && NatToDigits(15) == "15"
  {
    assert NatToDigits(1) == "1";
  }

  lemma SampleDefinitionTokens()
    ensures UnparseStmt(SampleProgram[0]) == SampleTokens[..13]
  {
    SampleDigits();
    assert UnparseParams(["a", "b"]) == [Token(Identifier, "a"), Sym(","), Token(Identifier, "b")];
    assert UnparseStmts(SampleProgram[0].body) == [Token(Identifier, "x"), Sym("="), Token(Number, "10"), Sym(";")];
  }

  lemma SampleCallTokens()
    ensures UnparseStmt(SampleProgram[1]) == SampleTokens[13..20]
  {
    SampleDigits();
    assert UnparseArgs(SampleProgram[1].arguments) == [Token(Number, "5"), Sym(","), Token(Number, "15")];
  }

  lemma SampleUnparses()
    ensures Unparse(SampleProgram) == SampleTokens
  {
    SampleDefinitionTokens();
    SampleCallTokens();
    assert UnparseStmts(SampleProgram) == UnparseStmt(SampleProgram[0]) + UnparseStmt(SampleProgram[1]);
  }
}
