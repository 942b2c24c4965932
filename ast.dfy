/** The syntax tree produced by the parser: literals, words and applications.
    Trees are immutable values, so the same tree can be evaluated repeatedly. */
module Ast {

  /** The payload of a literal node: the text between two double quotes, or the
      value of a run of decimal digits. */
  datatype Atom = Str(text: string) | Num(n: nat)

  datatype Expr =
    | Value(value: Atom)
    | Word(name: string)
    | Apply(operator: Expr, args: seq<Expr>)

  /** Number of nodes in a tree; a termination measure for proofs over trees. */
  function Size(e: Expr): (n: nat)
    ensures n >= 1
    decreases e
  {
    match e
    case Value(_) => 1
    case Word(_) => 1
    case Apply(op, args) => 1 + Size(op) + SizeAll(args)
  }

  function SizeAll(args: seq<Expr>): (n: nat)
    ensures n >= |args|
    decreases args
  {
    if args == [] then 0 else Size(args[0]) + SizeAll(args[1..])
  }
}
