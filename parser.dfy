/** The parser as it is written: three mutually recursive procedures, the
    middle one collecting the arguments of an application in a loop. Each is
    proved to compute exactly what the corresponding definition in Grammar
    describes, so the properties proved there hold of these procedures. */
module Parser {
  import opened Ast
  import Grammar

  /** A whole program; fails unless only white space and comments follow the
      expression. */
  method Parse(program: string) returns (r: Grammar.ParseOutcome)
    ensures r == Grammar.Parse(program)
  {
    var p := ParseExpression(program);
    match p
    case Fail(err) =>
      r := Grammar.Rejected(err);
    case Ok(expr, rest) =>
      if |Grammar.SkipSpace(rest)| > 0 {
        r := Grammar.Rejected(Grammar.UnexpectedText);
      } else {
        r := Grammar.Program(expr);
      }
  }

  /** A string literal, a number or a word, followed by any applications. */
  method ParseExpression(program: string) returns (r: Grammar.Parsed<Expr>)
    ensures r == Grammar.ParseExpression(program)
    decreases |program|
  {
    var p := Grammar.SkipSpace(program);
    var m := Grammar.MatchPrimary(p);
    if m.NoMatch? {
      return Grammar.Fail(Grammar.InvalidExpression(p));
    }
    r := ParseApply(m.node, p[m.len..]);
  }

  /** After an operator: each `(` opens an argument list, read in a loop up to
      the matching `)`; the application built is then examined again. */
  method ParseApply(expr: Expr, program: string) returns (r: Grammar.Parsed<Expr>)
    ensures r == Grammar.ParseApply(expr, program)
    decreases |program|
  {
    var p := Grammar.SkipSpace(program);
    if p == [] || p[0] != '(' {
      return Grammar.Ok(expr, p);
    }
    var start := p[1..];
    var args: seq<Expr> := [];
    p := start;
    while p == [] || p[0] != ')'
      invariant |p| <= |start|
      invariant Grammar.ParseArgs(p, args) == Grammar.ParseArgs(start, [])
      decreases |p|
    {
      var a := ParseExpression(p);
      if a.Fail? {
        return Grammar.Fail(a.error);
      }
      args := args + [a.value];
      p := Grammar.SkipSpace(a.rest);
      if p != [] && p[0] == ',' {
        p := Grammar.SkipSpace(p[1..]);
      } else if p == [] || p[0] != ')' {
        return Grammar.Fail(Grammar.MissingSeparator);
      }
    }
    r := ParseApply(Apply(expr, args), p[1..]);
  }
}
