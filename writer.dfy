/** Writing program trees back out as tokens, and the shapes of trees and
    tokens this writing involves. */
module Writer {
  import opened Tokens
  import opened Ast
  import opened Parser
  import Lexer

  // ---------------------------------------------------------------------
  // Trees that are written out and read back
  // ---------------------------------------------------------------------

  /** A name the tokenizer classifies as an Identifier. */
  predicate IsName(x: string) {
    Lexer.IsWordText(x) && x !in Lexer.Keywords
  }

  /** The node kinds parsePrimary can return. */
  predicate IsPrimary(e: Node) {
    e.NumberNode? || e.IdentifierNode? || e.AssignmentNode? || e.FunctionCallNode?
  }

  /** An expression ending in an assignment: its written form swallows any
      operators that follow it. */
  predicate OpenEnded(e: Node) {
    e.AssignmentNode? || (e.BinaryOpNode? && OpenEnded(e.right))
  }

  /** Expressions nested as parseExpression nests them (a BinaryOp has a
      closed chain on the left and a primary on the right) whose names are
      all identifiers. The parser also accepts other tokens as the name of
      an assignment target; those trees are not covered here. */
  predicate WellShapedExpr(e: Node, ops: set<string>) {
    match e
    case NumberNode(_) => true
    case IdentifierNode(x) => IsName(x)
    case BinaryOpNode(op, l, r) =>
      op in ops && WellShapedExpr(l, ops) && !OpenEnded(l) && IsPrimary(r) && WellShapedExpr(r, ops)
    case AssignmentNode(x, v) => IsName(x) && WellShapedExpr(v, ops)
    case FunctionCallNode(f, args) => IsName(f) && forall i :: 0 <= i < |args| ==> WellShapedExpr(args[i], ops)
    case BlockNode(_) => false
    case FunctionNode(_, _, _) => false
  }

  /** Statements nested as parseStatement nests them, with identifiers as
      function names and parameters. The parser also accepts any other
      token there; those trees are not covered here. */
  predicate WellShapedStmt(s: Node, ops: set<string>) {
    match s
    case FunctionNode(f, ps, body) =>
      IsName(f) && (forall i :: 0 <= i < |ps| ==> IsName(ps[i])) &&
      forall i :: 0 <= i < |body| ==> WellShapedStmt(body[i], ops)
    case _ => WellShapedExpr(s, ops)
  }

  predicate WellShapedStmts(ss: seq<Node>, ops: set<string>) {
    forall i :: 0 <= i < |ss| ==> WellShapedStmt(ss[i], ops)
  }

  // ---------------------------------------------------------------------
  // Writing trees out
  // ---------------------------------------------------------------------

  function Sym(s: string): Token { Token(Symbol, s) }

  function DigitChar(d: nat): (c: char)
    requires d < 10
    ensures Lexer.IsDigit(c) && DigitValue(c) == d
  {
    ('0' as int + d) as char
  }

  /** Decimal digits of `n`, most significant first, no leading zeros. */
  function NatToDigits(n: nat): (s: string)
    ensures Lexer.IsDigitText(s) && DigitsValue(s) == n
    ensures s[0] == '0' ==> s == "0"
  {
    if n < 10 then [DigitChar(n)]
    else
      var s := NatToDigits(n / 10) + [DigitChar(n % 10)];
      assert s[..|s| - 1] == NatToDigits(n / 10);
      assert s[0] == NatToDigits(n / 10)[0];
      s
  }

  function UnparseExpr(e: Node): seq<Token>
    decreases e, 1
  {
    match e
    case NumberNode(v) => [Token(Number, NatToDigits(v))]
    case IdentifierNode(x) => [Token(Identifier, x)]
    case BinaryOpNode(op, l, r) => UnparseExpr(l) + [Sym(op)] + UnparseExpr(r)
    case AssignmentNode(x, v) => [Token(Identifier, x), Sym("=")] + UnparseExpr(v)
    case FunctionCallNode(f, args) => [Token(Identifier, f), Sym("(")] + UnparseArgs(args) + [Sym(")")]
    case BlockNode(_) => []
    case FunctionNode(_, _, _) => []
  }

  /** Arguments separated by commas. */
  function UnparseArgs(args: seq<Node>): seq<Token>
    decreases args, 0
  {
    if |args| == 0 then []
    else if |args| == 1 then UnparseExpr(args[0])
    else UnparseExpr(args[0]) + [Sym(",")] + UnparseArgs(args[1..])
  }

  /** Parameter names separated by commas. */
  function UnparseParams(ps: seq<string>): seq<Token>
  {
    if |ps| == 0 then []
    else if |ps| == 1 then [Token(Identifier, ps[0])]
    else [Token(Identifier, ps[0]), Sym(",")] + UnparseParams(ps[1..])
  }

  function UnparseStmt(s: Node): seq<Token>
    decreases s, 1
  {
    match s
    case FunctionNode(f, ps, body) =>
      [Token(Keyword, "def"), Token(Identifier, f), Sym("(")] + UnparseParams(ps) +
      [Sym(")"), Sym("{")] + UnparseStmts(body) + [Sym("}")]
    case _ => UnparseExpr(s) + [Sym(";")]
  }

  function UnparseStmts(ss: seq<Node>): seq<Token>
    decreases ss, 0
  {
    if |ss| == 0 then [] else UnparseStmt(ss[0]) + UnparseStmts(ss[1..])
  }

  /** The token sequence of a whole program, closed by END_OF_FILE. */
  function Unparse(program: seq<Node>): seq<Token> {
    UnparseStmts(program) + [Eof]
  }

  // ---------------------------------------------------------------------
  // Parsing what was unparsed
  // ---------------------------------------------------------------------

  /** The tokens from `pos` on begin with `u`. */
  predicate Matches(tokens: seq<Token>, pos: nat, u: seq<Token>)
    decreases |u|
  {
    if |u| == 0 then pos <= |tokens|
    else pos < |tokens| && tokens[pos] == u[0] && Matches(tokens, pos + 1, u[1..])
  }

  /** A token an unparsed expression can start with. */
  predicate StartsExpr(t: Token) {
    (t.kind == Identifier && IsName(t.text)) || (t.kind == Number && Lexer.IsDigitText(t.text))
  }

  /** Tokens that may follow an expression inside a larger one: the
      lookahead of parsePrimary must not see `(` or `=`, and an expression
      that ends in an assignment must not be followed by an operator. */
  predicate CanFollow(e: Node, t: Token) {
    t.text != "(" && t.text != "=" && (OpenEnded(e) ==> t.text !in BinaryOperators)
  }

  /** Tokens that end any expression: `;`, `,` and `)` are among them. */
  predicate Terminates(t: Token) {
    t.text != "(" && t.text != "=" && t.text !in BinaryOperators
  }

  // ---------------------------------------------------------------------
  // What the writer emits
  // ---------------------------------------------------------------------

  /** The operators a scanned token can carry: each is one character. */
  const ScannedOperators: set<string> := {"+", "-", "*", "/"}

  /** The symbols the writer uses around and between subtrees. */
  const Punctuation: set<string> := {"(", ")", "{", "}", ",", ";", "="}

  /** A token the writer emits for a tree whose operators are in `ops`. */
  predicate Emitted(t: Token, ops: set<string>) {
    match t.kind
    case Keyword => t.text == "def"
    case Identifier => IsName(t.text)
    case Number => Lexer.IsDigitText(t.text)
    case Symbol => t.text in Punctuation || t.text in ops
    case EndOfFile => false
  }

  predicate AllEmitted(ts: seq<Token>, ops: set<string>) {
    forall i :: 0 <= i < |ts| ==> Emitted(ts[i], ops)
  }
}
