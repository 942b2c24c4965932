/** Programs from the parser's own usage notes, and the corner cases of its
    argument loop, read by Grammar.Parse. Each is taken apart into the steps
    the parser performs. */
module ParseSamples {
  import opened Ast
  import opened Grammar
  import Printer

  /** A word followed by text that cannot continue it is read as that word;
      parsing goes on with the applications after it. */
  lemma {:induction false} WordFirst(x: string, rest: string)
    requires Printer.Printable(Word(x)) && Printer.Delimited(rest)
    ensures ParseExpression(x + rest) == ParseApply(Word(x), rest)
  {
    var s := x + rest;
    assert s[0] == x[0];
    Printer.Unskipped(s);
    Printer.MatchWord(x, rest);
    Printer.ExpressionStep(s, Word(x), |x|);
    assert s[|x|..] == rest;
  }

  /** After an expression, text that is neither blank nor `(` is left as it is. */
  lemma {:induction false} WordAlone(x: string, rest: string)
    requires Printer.Printable(Word(x)) && rest != [] && !IsNameChar(rest[0]) && rest[0] != '('
    requires !IsSpace(rest[0]) && rest[0] != '#'
    ensures ParseExpression(x + rest) == Ok(Word(x), rest)
  {
    WordFirst(x, rest);
    Printer.Unskipped(rest);
  }

  /** A call of the word x whose argument list, after `(`, reads as args
      with nothing after the closing `)`. */
  lemma {:induction false} CallOf(x: string, text: string, args: seq<Expr>)
    requires Printer.Printable(Word(x)) && ParseArgs(text, []) == Ok(args, [])
    ensures Parse(x + "(" + text) == Program(Apply(Word(x), args))
  {
    assert x + "(" + text == x + ("(" + text);
    WordFirst(x, "(" + text);
    Printer.ApplyStep(Word(x), text, args, []);
  }

  /** An argument list that fails makes the application fail. */
  lemma ApplyFails(e: Expr, text: string, err: ParseError)
    requires ParseArgs(text, []) == Fail(err)
    ensures ParseApply(e, "(" + text) == Fail(err)
  {
    assert ("(" + text)[1..] == text;
    assert SkipSpace("(" + text) == "(" + text;
  }

  /** `)` ends the argument list. */
  lemma ArgsClose(p: string, acc: seq<Expr>)
    requires p != [] && p[0] == ')'
    ensures ParseArgs(p, acc) == Ok(acc, p[1..])
  {}

  /** An argument followed by neither `,` nor `)`. */
  lemma ArgsMissing(p: string, acc: seq<Expr>, a: Expr, rest: string)
    requires !(p != [] && p[0] == ')') && ParseExpression(p) == Ok(a, rest)
    requires rest == [] || (rest[0] != ',' && rest[0] != ')')
    ensures ParseArgs(p, acc) == Fail(MissingSeparator)
  {}

  /** A call of the word x whose argument list fails with err. */
  lemma {:induction false} CallFails(x: string, text: string, err: ParseError)
    requires Printer.Printable(Word(x)) && ParseArgs(text, []) == Fail(err)
    ensures Parse(x + "(" + text) == Rejected(err)
  {
    assert x + "(" + text == x + ("(" + text);
    WordFirst(x, "(" + text);
    ApplyFails(Word(x), text, err);
  }

  /** A comment with text c, up to and including its line break, is skipped. */
  lemma {:induction false} SkipComment(c: string, t: string)
    requires forall i :: 0 <= i < |c| ==> NotLineTerminator(c[i])
    ensures SkipSpace("#" + c + "\n" + t) == SkipSpace(t)
  {
    var s := "#" + c + "\n" + t;
    assert s[1..] == c + "\n" + t;
    Printer.SpanExact(s[1..], NotLineTerminator, |c|);
    SkipCommentUnfold(s);
    assert s[1 + |c|..] == "\n" + t;
    SkipSpaceLeading("\n", t);
  }

  /** A comment runs to the end of its line: `# hello` then a word on the
      next line is that word. */
  lemma {:induction false} CommentBeforeWord(x: string)
    requires Printer.Printable(Word(x))
    ensures Parse("# hello\n" + x) == Program(Word(x))
  {
    var s := "# hello\n" + x;
    assert s == "#" + " hello" + "\n" + x;
    SkipComment(" hello", x);
    Printer.Unskipped(x);
    assert x + [] == x;
    Printer.MatchWord(x, []);
    assert x[|x|..] == [];
    assert ParseExpression(s) == ParseApply(Word(x), []);
  }

  /** A blank, a comment with text c1, a line break, three blanks, a comment
      with text c2 and a line break are skipped. */
  lemma {:induction false} TwoCommentsSkipped(c1: string, c2: string, t: string)
    requires forall i :: 0 <= i < |c1| ==> NotLineTerminator(c1[i])
    requires forall i :: 0 <= i < |c2| ==> NotLineTerminator(c2[i])
    ensures SkipSpace(" " + ("#" + c1 + "\n" + ("   " + ("#" + c2 + "\n" + t)))) == SkipSpace(t)
  {
    var r1 := "#" + c2 + "\n" + t;
    SkipComment(c2, t);
    var r2 := "   " + r1;
    SkipSpaceLeading("   ", r1);
    var r3 := "#" + c1 + "\n" + r2;
    SkipComment(c1, r2);
    SkipSpaceLeading(" ", r3);
  }

  /** Comments and white space may separate an operator from its `(`: as in
      `a # one`, a line `   # two`, then `()`, a call of a with no
      arguments. */
  lemma {:induction false} CommentsBeforeCall(x: string, c1: string, c2: string)
    requires Printer.Printable(Word(x))
    requires forall i :: 0 <= i < |c1| ==> NotLineTerminator(c1[i])
    requires forall i :: 0 <= i < |c2| ==> NotLineTerminator(c2[i])
    ensures Parse(x + (" " + ("#" + c1 + "\n" + ("   " + ("#" + c2 + "\n" + "()"))))) == Program(Apply(Word(x), []))
  {
    var r := " " + ("#" + c1 + "\n" + ("   " + ("#" + c2 + "\n" + "()")));
    TwoCommentsSkipped(c1, c2, "()");
    assert SkipSpace("()") == "()";
    WordFirst(x, r);
    ApplySkips(Word(x), r);
    ArgsClose(")", []);
    Printer.ApplyStep(Word(x), ")", [], []);
    assert "(" + ")" == "()";
  }

  /** What comes before the `(` of an application is skipped first. */
  lemma ApplySkips(e: Expr, s: string)
    ensures ParseApply(e, s) == ParseApply(e, SkipSpace(s))
  {
    SkipSpaceIdempotent(s);
  }

  /** After `(` the loop looks for `)` before skipping white space, so an
      empty argument list may not contain a blank. */
  lemma {:induction false} BlankEmptyArguments(f: string)
    requires Printer.Printable(Word(f))
    ensures Parse(f + "( )") == Rejected(InvalidExpression(")"))
  {
    SkipSpaceLeading(" ", ")");
    assert " " + ")" == " )";
    Printer.Unskipped(")");
    assert MatchPrimary(")").NoMatch?;
    assert ParseArgs(" )", []) == Fail(InvalidExpression(")"));
    CallFails(f, " )", InvalidExpression(")"));
    assert f + "(" + " )" == f + "( )";
  }

  /** `a,)`: after the comma the loop finds `)`. */
  lemma {:induction false} TrailingCommaArgs(a: string)
    requires Printer.Printable(Word(a))
    ensures ParseArgs(a + ",)", []) == Ok([Word(a)], [])
  {
    WordAlone(a, ",)");
    assert ",)" == "," + ")";
    assert (a + ",)")[0] == a[0];
    Printer.ArgsComma(a + ",)", [], Word(a), ")");
    Printer.Unskipped(")");
    ArgsClose(")", [] + [Word(a)]);
    assert [] + [Word(a)] == [Word(a)] && ")"[1..] == [];
  }

  /** After a comma the loop looks for `)` again, so a trailing comma is
      accepted. */
  lemma {:induction false} TrailingComma(f: string, a: string)
    requires Printer.Printable(Word(f)) && Printer.Printable(Word(a))
    ensures Parse(f + "(" + a + ",)") == Program(Apply(Word(f), [Word(a)]))
  {
    TrailingCommaArgs(a);
    CallOf(f, a + ",)", [Word(a)]);
    assert f + "(" + (a + ",)") == f + "(" + a + ",)";
  }

  /** `a b)`: the argument a is followed by neither `,` nor `)`. */
  lemma {:induction false} MissingCommaArgs(a: string, b: string)
    requires Printer.Printable(Word(a)) && Printer.Printable(Word(b))
    ensures ParseArgs(a + (" " + (b + ")")), []) == Fail(MissingSeparator)
  {
    var p := a + (" " + (b + ")"));
    WordFirst(a, " " + (b + ")"));
    SkipSpaceLeading(" ", b + ")");
    assert (b + ")")[0] == b[0];
    Printer.Unskipped(b + ")");
    assert p[0] == a[0];
    ArgsMissing(p, [], Word(a), b + ")");
  }

  /** Two arguments need a comma between them. */
  lemma {:induction false} MissingComma(f: string, a: string, b: string)
    requires Printer.Printable(Word(f)) && Printer.Printable(Word(a)) && Printer.Printable(Word(b))
    ensures Parse(f + "(" + a + " " + b + ")") == Rejected(MissingSeparator)
  {
    MissingCommaArgs(a, b);
    CallFails(f, a + (" " + (b + ")")), MissingSeparator);
    Regroup(f, a, b);
  }

  /** The grouping of `f(a b)` that the two lemmas above use. */
  lemma Regroup(f: string, a: string, b: string)
    ensures f + "(" + (a + (" " + (b + ")"))) == f + "(" + a + " " + b + ")"
  {
    assert f + "(" + (a + (" " + (b + ")"))) == f + "(" + a + " " + b + ")";
  }

  /** A program is one expression: a second one after it is rejected. */
  lemma {:induction false} TextAfterProgram(a: string, b: string)
    requires Printer.Printable(Word(a)) && Printer.Printable(Word(b))
    ensures Parse(a + " " + b) == Rejected(UnexpectedText)
  {
    assert a + " " + b == a + (" " + b);
    WordFirst(a, " " + b);
    SkipSpaceLeading(" ", b);
    Printer.Unskipped(b);
  }
}
