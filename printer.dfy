/** A printer for syntax trees, and the proof that the parser reads back
    exactly what it prints: the trees the parser can produce are precisely
    the printable ones, and printing one and parsing the text gives the
    same tree back. */
module Printer {
  import opened Ast
  import opened Grammar

  // ---------------------------------------------------------------------
  // Printing

  /** The digit for 0 <= d < 10. */
  function Digit(d: nat): (c: char)
    requires d < 10
    ensures IsDigit(c) && c as int - '0' as int == d
  {
    ('0' as int + d) as char
  }

  /** Decimal notation of n, without leading zeros. */
  function ShowNat(n: nat): (d: string)
    ensures d != [] && forall i :: 0 <= i < |d| ==> IsDigit(d[i])
    ensures DecimalValue(d) == n
    ensures d[0] == '0' ==> d == "0"
    decreases n
  {
    if n < 10 then [Digit(n)]
    else
      var d := ShowNat(n / 10) + [Digit(n % 10)];
      assert d[..|d| - 1] == ShowNat(n / 10);
      d
  }

  function Show(e: Expr): string
    decreases e
  {
    match e
    case Value(Str(t)) => "\"" + t + "\""
    case Value(Num(n)) => ShowNat(n)
    case Word(x) => x
    case Apply(op, args) => Show(op) + "(" + ShowArgs(args) + ")"
  }

  /** The arguments, separated by commas. */
  function ShowArgs(args: seq<Expr>): string
    decreases args
  {
    if args == [] then ""
    else if |args| == 1 then Show(args[0])
    else Show(args[0]) + "," + ShowArgs(args[1..])
  }

  /** The trees that have a written form: string literals without a double
      quote, any number, and words of name characters that the number
      pattern does not claim. */
  predicate Printable(e: Expr)
    decreases e
  {
    match e
    case Value(Str(t)) => '"' !in t
    case Value(Num(_)) => true
    case Word(x) =>
      && x != []
      && (forall i :: 0 <= i < |x| ==> IsNameChar(x[i]))
      && NumberLength(x) == 0
    case Apply(op, args) => Printable(op) && forall i :: 0 <= i < |args| ==> Printable(args[i])
  }

  /** What may follow a printed tree without changing how it is read. */
  predicate Delimited(rest: string) {
    rest == [] || !IsNameChar(rest[0])
  }

  // ---------------------------------------------------------------------
  // Printing then parsing

  lemma ShowStart(e: Expr)
    requires Printable(e)
    ensures Show(e) != [] && (Show(e)[0] == '"' || IsNameChar(Show(e)[0]))
    decreases e
  {
    match e
    case Value(Str(_)) =>
    case Value(Num(n)) =>
    case Word(_) =>
    case Apply(op, args) =>
      ShowStart(op);
  }

  lemma SpanExact(s: string, p: char -> bool, k: nat)
    requires k <= |s| && (forall i :: 0 <= i < k ==> p(s[i])) && (k == |s| || !p(s[k]))
    ensures Span(s, p) == k
  {}

  lemma MatchString(t: string, rest: string)
    requires '"' !in t
    ensures MatchPrimary("\"" + t + "\"" + rest) == Matched(Value(Str(t)), |t| + 2)
  {
    var p := "\"" + t + "\"" + rest;
    assert forall i :: 0 <= i < |t| ==> p[1..][i] == t[i];
    assert p[1..][|t|] == '"';
    SpanExact(p[1..], NotQuote, |t|);
    assert p[1..|t| + 1] == t;
  }

  lemma MatchNumber(n: nat, rest: string)
    requires Delimited(rest)
    ensures MatchPrimary(ShowNat(n) + rest) == Matched(Value(Num(n)), |ShowNat(n)|)
  {
    var d := ShowNat(n);
    var p := d + rest;
    SpanExact(p, IsDigit, |d|);
    assert p[..|d|] == d;
  }

  lemma MatchWord(x: string, rest: string)
    requires Printable(Word(x)) && Delimited(rest)
    ensures MatchPrimary(x + rest) == Matched(Word(x), |x|)
  {
    var p := x + rest;
    var j := Span(x, IsDigit);
    SpanExact(p, IsDigit, j);
    SpanExact(p, IsNameChar, |x|);
    assert p[..|x|] == x;
  }

  lemma ExpressionStep(s: string, e: Expr, n: nat)
    requires SkipSpace(s) == s && MatchPrimary(s) == Matched(e, n)
    ensures ParseExpression(s) == ParseApply(e, s[n..])
  {}

  /** An argument list after `(` extends the tree built so far. */
  lemma ApplyStep(e: Expr, x: string, args: seq<Expr>, rest: string)
    requires ParseArgs(x, []) == Ok(args, rest)
    ensures ParseApply(e, "(" + x) == ParseApply(Apply(e, args), rest)
  {
    assert ("(" + x)[1..] == x;
    assert SkipSpace("(" + x) == "(" + x;
  }

  /** Printed text followed by a delimiter is read back as the same tree, and
      the parser goes on exactly as it would after having built that tree. */
  lemma {:induction false} ParseShown(e: Expr, rest: string)
    requires Printable(e) && Delimited(rest)
    ensures ParseExpression(Show(e) + rest) == ParseApply(e, rest)
    decreases Size(e), 0
  {
    ShowStart(e);
    var s := Show(e) + rest;
    match e
    case Value(Str(t)) =>
      MatchString(t, rest);
      assert s[|t| + 2..] == rest;
      ExpressionStep(s, e, |t| + 2);
    case Value(Num(n)) =>
      MatchNumber(n, rest);
      assert s[|ShowNat(n)|..] == rest;
      ExpressionStep(s, e, |ShowNat(n)|);
    case Word(x) =>
      MatchWord(x, rest);
      assert s[|x|..] == rest;
      ExpressionStep(s, e, |x|);
    case Apply(op, args) =>
      var tail := "(" + ShowArgs(args) + ")" + rest;
      ShowApply(op, args, rest);
      ParseShown(op, tail);
      ParseArgsShown(args, [], rest);
      assert [] + args == args;
      ApplyShown(op, args, rest);
  }

  lemma ShowApply(op: Expr, args: seq<Expr>, rest: string)
    ensures Show(Apply(op, args)) + rest == Show(op) + ("(" + ShowArgs(args) + ")" + rest)
  {}

  lemma ApplyShown(op: Expr, args: seq<Expr>, rest: string)
    requires ParseArgs(ShowArgs(args) + ")" + rest, []) == Ok(args, rest)
    ensures ParseApply(op, "(" + ShowArgs(args) + ")" + rest) == ParseApply(Apply(op, args), rest)
  {
    var x := ShowArgs(args) + ")" + rest;
    assert "(" + ShowArgs(args) + ")" + rest == "(" + x;
    ApplyStep(op, x, args, rest);
  }

  /** A printed argument list and its `)` are read back as those arguments. */
  lemma {:induction false} ParseArgsShown(args: seq<Expr>, acc: seq<Expr>, rest: string)
    requires forall i :: 0 <= i < |args| ==> Printable(args[i])
    ensures ParseArgs(ShowArgs(args) + ")" + rest, acc) == Ok(acc + args, rest)
    decreases SizeAll(args), 2
  {
    if args == [] {
      assert ShowArgs(args) + ")" + rest == ")" + rest;
      assert acc + args == acc;
    } else if |args| == 1 {
      LastArgShown(args, acc, rest);
    } else {
      NextArgShown(args, acc, rest);
    }
  }

  lemma {:induction false} LastArgShown(args: seq<Expr>, acc: seq<Expr>, rest: string)
    requires |args| == 1 && Printable(args[0])
    ensures ParseArgs(ShowArgs(args) + ")" + rest, acc) == Ok(acc + args, rest)
    decreases SizeAll(args), 1
  {
    var a := args[0];
    var p := ShowArgs(args) + ")" + rest;
    var tail := ")" + rest;
    ShowStart(a);
    assert p == Show(a) + tail;
    ParseShown(a, tail);
    Unskipped(tail);
    ArgsLast(p, acc, a, rest);
    assert acc + args == acc + [a];
  }

  lemma {:induction false} NextArgShown(args: seq<Expr>, acc: seq<Expr>, rest: string)
    requires |args| > 1 && forall i :: 0 <= i < |args| ==> Printable(args[i])
    ensures ParseArgs(ShowArgs(args) + ")" + rest, acc) == Ok(acc + args, rest)
    decreases SizeAll(args), 1
  {
    var more := ShowArgs(args[1..]) + ")" + rest;
    var tail := args[1..];
    assert forall i :: 0 <= i < |tail| ==> Printable(tail[i]) by {
      forall i | 0 <= i < |tail| ensures Printable(tail[i]) {
        assert tail[i] == args[i + 1];
      }
    }
    assert acc + [args[0]] + tail == acc + args;
    ShowArgsStart(tail, rest);
    calc {
      ParseArgs(ShowArgs(args) + ")" + rest, acc);
    == { ShowArgsCons(args, rest); }
      ParseArgs(Show(args[0]) + ("," + more), acc);
    == { CommaArgShown(args[0], more, acc); }
      ParseArgs(more, acc + [args[0]]);
    == { ParseArgsShown(tail, acc + [args[0]], rest); }
      Ok(acc + args, rest);
    }
  }

  /** An argument followed by a comma and the next argument. */
  lemma {:induction false} CommaArgShown(a: Expr, more: string, acc: seq<Expr>)
    requires Printable(a) && more != [] && (more[0] == '"' || IsNameChar(more[0]))
    ensures ParseArgs(Show(a) + ("," + more), acc) == ParseArgs(more, acc + [a])
    decreases Size(a), 1
  {
    ShowStart(a);
    ParseShown(a, "," + more);
    Unskipped("," + more);
    Unskipped(more);
    ArgsComma(Show(a) + ("," + more), acc, a, more);
  }

  lemma ShowArgsCons(args: seq<Expr>, rest: string)
    requires |args| > 1
    ensures ShowArgs(args) + ")" + rest == Show(args[0]) + ("," + (ShowArgs(args[1..]) + ")" + rest))
  {
    assert ShowArgs(args) == Show(args[0]) + "," + ShowArgs(args[1..]);
    Regroup(Show(args[0]), ",", ShowArgs(args[1..]), ")", rest);
  }

  lemma Regroup(a: string, b: string, c: string, d: string, e: string)
    ensures a + b + c + d + e == a + (b + (c + d + e))
  {}

  lemma ShowArgsStart(args: seq<Expr>, rest: string)
    requires args != [] && Printable(args[0])
    ensures ShowArgs(args) + ")" + rest != []
    ensures (ShowArgs(args) + ")" + rest)[0] == '"' || IsNameChar((ShowArgs(args) + ")" + rest)[0])
  {
    ShowStart(args[0]);
  }

  /** Text starting with neither white space nor `#` is not skipped at all,
      and is read as it stands after an expression. */
  lemma Unskipped(s: string)
    requires s != [] && !IsSpace(s[0]) && s[0] != '#' && s[0] != '('
    ensures SkipSpace(s) == s
    ensures forall e :: ParseApply(e, s) == Ok(e, s)
  {}

  lemma ArgsLast(p: string, acc: seq<Expr>, a: Expr, rest: string)
    requires !(p != [] && p[0] == ')') && ParseExpression(p) == Ok(a, ")" + rest)
    ensures ParseArgs(p, acc) == Ok(acc + [a], rest)
  {
    assert SkipSpace(")" + rest) == ")" + rest;
    assert (")" + rest)[1..] == rest;
  }

  lemma ArgsComma(p: string, acc: seq<Expr>, a: Expr, more: string)
    requires !(p != [] && p[0] == ')') && ParseExpression(p) == Ok(a, "," + more)
    ensures ParseArgs(p, acc) == ParseArgs(SkipSpace(more), acc + [a])
  {
    assert SkipSpace("," + more) == "," + more;
    assert ("," + more)[1..] == more;
  }

  /** The round trip: printing a tree that has a written form and parsing
      the text gives back the tree. */
  lemma PrintThenParse(e: Expr)
    requires Printable(e)
    ensures Parse(Show(e)) == Program(e)
  {
    ParseShown(e, "");
    assert Show(e) + "" == Show(e);
  }

  /** White space and comments are allowed around a printed tree. */
  lemma PrintThenParseWithSpace(w: string, e: Expr, rest: string)
    requires Printable(e)
    requires forall i :: 0 <= i < |w| ==> IsSpace(w[i])
    requires Delimited(rest) && (SkipSpace(rest) == [] || SkipSpace(rest)[0] != '(')
    ensures ParseExpression(w + (Show(e) + rest)) == Ok(e, SkipSpace(rest))
  {
    ParseAfterSpace(w, Show(e) + rest);
    ParseShown(e, rest);
  }

  /** White space in front of an expression changes nothing. */
  lemma ParseAfterSpace(w: string, s: string)
    requires forall i :: 0 <= i < |w| ==> IsSpace(w[i])
    ensures ParseExpression(w + s) == ParseExpression(s)
  {
    SkipSpaceLeading(w, s);
  }


  // ---------------------------------------------------------------------
  // Parsing yields printable trees

  lemma MatchedPrintable(p: string)
    ensures MatchPrimary(p).Matched? ==> Printable(MatchPrimary(p).node)
  {
    var m := MatchPrimary(p);
    if m.Matched? && m.node.Word? {
      var x := m.node.name;
      var j := Span(p, IsDigit);
      var k := m.len;
      assert NumberLength(p) == 0;
      if j > 0 {
        assert j < |p| && IsWordChar(p[j]);
        assert j < k;
        SpanExact(x, IsDigit, j);
      } else {
        SpanExact(x, IsDigit, 0);
      }
    }
  }

  lemma {:induction false} ParseExpressionPrintable(s: string)
    ensures ParseExpression(s).Ok? ==> Printable(ParseExpression(s).value)
    decreases |s|, 0
  {
    var p := SkipSpace(s);
    MatchedPrintable(p);
    match MatchPrimary(p)
    case NoMatch =>
    case Matched(node, n) =>
      ParseApplyPrintable(node, p[n..]);
  }

  lemma {:induction false} ParseApplyPrintable(e: Expr, s: string)
    requires Printable(e)
    ensures ParseApply(e, s).Ok? ==> Printable(ParseApply(e, s).value)
    decreases |s|, 2
  {
    var p := SkipSpace(s);
    if p != [] && p[0] == '(' {
      ParseArgsPrintable(p[1..], []);
      match ParseArgs(p[1..], [])
      case Fail(_) =>
      case Ok(args, rest) =>
        ParseApplyPrintable(Apply(e, args), rest);
    }
  }

  lemma {:induction false} ParseArgsPrintable(p: string, acc: seq<Expr>)
    requires forall i :: 0 <= i < |acc| ==> Printable(acc[i])
    ensures ParseArgs(p, acc).Ok? ==>
              forall i :: 0 <= i < |ParseArgs(p, acc).value| ==> Printable(ParseArgs(p, acc).value[i])
    decreases |p|, 1
  {
    if !(p != [] && p[0] == ')') {
      ParseExpressionPrintable(p);
      match ParseExpression(p)
      case Fail(_) =>
      case Ok(a, rest) =>
        var q := SkipSpace(rest);
        if q != [] && q[0] == ',' {
          ParseArgsPrintable(SkipSpace(q[1..]), acc + [a]);
        } else if q != [] && q[0] == ')' {
          ParseArgsPrintable(q, acc + [a]);
        }
    }
  }

  /** Every tree a program parses to has a written form, so the printer is
      exact for the parser's output and Parse(Show(Parse(s))) gives the tree
      back. */
  lemma ParseThenPrint(s: string)
    ensures Parse(s).Program? ==> Parse(Show(Parse(s).tree)) == Parse(s)
  {
    ParseExpressionPrintable(s);
    if Parse(s).Program? {
      PrintThenParse(Parse(s).tree);
    }
  }
}
