/** The AST node classes of prolang/parser.cpp as one closed tree datatype.
    Each C++ subclass of ASTNode is a constructor; the shared pointers
    between nodes become plain subterms, so every tree is finite. */
module Ast {

  datatype Node =
    | NumberNode(value: nat)
    | IdentifierNode(name: string)
    | BinaryOpNode(op: string, left: Node, right: Node)
      /** `target` is the name held by the assigned IdentifierNode, `right` the assigned expression. */
    | AssignmentNode(target: string, right: Node)
    | BlockNode(statements: seq<Node>)
      /** `body` is the statement list of the function's BlockNode. */
    | FunctionNode(name: string, parameters: seq<string>, body: seq<Node>)
    | FunctionCallNode(functionName: string, arguments: seq<Node>)

  /** Every operator text that occurs in a tree. */
  predicate OperatorsIn(n: Node, ops: set<string>)
  {
    match n
    case NumberNode(_) => true
    case IdentifierNode(_) => true
    case BinaryOpNode(op, l, r) => op in ops && OperatorsIn(l, ops) && OperatorsIn(r, ops)
    case AssignmentNode(_, v) => OperatorsIn(v, ops)
    case BlockNode(ss) => forall i :: 0 <= i < |ss| ==> OperatorsIn(ss[i], ops)
    case FunctionNode(_, _, body) => forall i :: 0 <= i < |body| ==> OperatorsIn(body[i], ops)
    case FunctionCallNode(_, args) => forall i :: 0 <= i < |args| ==> OperatorsIn(args[i], ops)
  }

  /** Allowing more operators keeps a tree allowed. */
  lemma {:induction false} OperatorsInMono(n: Node, small: set<string>, large: set<string>)
    requires OperatorsIn(n, small) && small <= large
    ensures OperatorsIn(n, large)
  {
    match n
    case NumberNode(_) =>
    case IdentifierNode(_) =>
    case BinaryOpNode(_, l, r) =>
      OperatorsInMono(l, small, large);
      OperatorsInMono(r, small, large);
    case AssignmentNode(_, v) =>
      OperatorsInMono(v, small, large);
    case BlockNode(ss) =>
      forall i | 0 <= i < |ss| ensures OperatorsIn(ss[i], large) {
        OperatorsInMono(ss[i], small, large);
      }
    case FunctionNode(_, _, body) =>
      forall i | 0 <= i < |body| ensures OperatorsIn(body[i], large) {
        OperatorsInMono(body[i], small, large);
      }
    case FunctionCallNode(_, args) =>
      forall i | 0 <= i < |args| ensures OperatorsIn(args[i], large) {
        OperatorsInMono(args[i], small, large);
      }
  }
}
