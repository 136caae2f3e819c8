/** The syntax tree the parser hands to the evaluator: expressions, literal values and
    statements. Every node owns its children, so both trees are finite and recursion
    over them is well founded. */
module Ast {
  import opened Numbers
  import Tokens

  /** The operator of a binary node, as the evaluator tells operators apart: the four
      arithmetic tokens, the equality token, and any other token. */
  datatype Op = Add | Sub | Mul | Div | Eq | Other

  /** The operator a token stands for when it is stored in a binary node. The token set
      has no equality token, so no token maps to `Eq`. */
  function OperatorOf<N>(t: Tokens.Token<N>): (op: Op)
    ensures op == Add <==> t.OperatorAdd?
    ensures op == Sub <==> t.OperatorSub?
    ensures op == Mul <==> t.OperatorMul?
    ensures op == Div <==> t.OperatorDiv?
    ensures op != Eq
  {
    match t
    case OperatorAdd => Add
    case OperatorSub => Sub
    case OperatorMul => Mul
    case OperatorDiv => Div
    case _ => Other
  }

  datatype LiteralValue<N> = Number(num: N) | String(text: string)

  /** `Display for LiteralValue`: a number prints through the number renderer, a string
      prints verbatim. */
  function Display<N>(ops: NumOps<N>, v: LiteralValue<N>): string {
    match v
    case Number(n) => ops.render(n)
    case String(s) => s
  }

  datatype Expr<N> =
    | Assign(name: string, value: Expr<N>)
    | Binary(left: Expr<N>, op: Op, right: Expr<N>)
    | Literal(literal: LiteralValue<N>)
    | Variable(name: string)

  datatype Statement<N> =
    | Block(statements: seq<Statement<N>>)
    | Expression(expression: Expr<N>)
    | Branch(condition: Expr<N>, consequent: Statement<N>)
    | Loop(body: Statement<N>)
    | Speak(expression: Expr<N>)
    | Input(input: string)
    | Var(name: string, init: Expr<N>)
    | Exit
}
