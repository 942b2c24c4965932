/** What the parser accepts, as pure functions over strings: each step takes a
    prefix of its input and returns the node built from it with the rest.
    The regular expressions of the parser are replaced by character classes. */
module Grammar {
  import opened Ast

  // ---------------------------------------------------------------------
  // Character classes

  /** JavaScript's `\s`: the ECMAScript white-space and line-terminator characters. */
  predicate IsSpace(c: char) {
    || c == ' ' || c == '\t' || c == '\n' || c == '\r'
    || c as int == 0x0B || c as int == 0x0C || c as int == 0xA0 || c as int == 0x1680
    || (0x2000 <= c as int <= 0x200A)
    || c as int == 0x2028 || c as int == 0x2029 || c as int == 0x202F
    || c as int == 0x205F || c as int == 0x3000 || c as int == 0xFEFF
  }

  /** The characters JavaScript's `.` does not match. */
  predicate IsLineTerminator(c: char) {
    c == '\n' || c == '\r' || c as int == 0x2028 || c as int == 0x2029
  }

  predicate NotLineTerminator(c: char) { !IsLineTerminator(c) }

  predicate NotQuote(c: char) { c != '"' }

  /** `\d` */
  predicate IsDigit(c: char) { '0' <= c <= '9' }

  /** `\w`, the characters on whose edge `\b` sits. */
  predicate IsWordChar(c: char) {
    ('a' <= c <= 'z') || ('A' <= c <= 'Z') || IsDigit(c) || c == '_'
  }

  /** The characters a word is made of: anything except white space, the
      parentheses, the double quote, the comma and `#`. */
  predicate IsNameChar(c: char) {
    !IsSpace(c) && c != '(' && c != ')' && c != '"' && c != ',' && c != '#'
  }

  lemma LineTerminatorIsSpace(c: char)
    ensures IsLineTerminator(c) ==> IsSpace(c)
  {}

  /** Length of the longest prefix of `s` whose characters all satisfy `p`. */
  function Span(s: string, p: char -> bool): (n: nat)
    ensures n <= |s|
    ensures forall i :: 0 <= i < n ==> p(s[i])
    ensures n == |s| || !p(s[n])
    decreases |s|
  {
    if s != [] && p(s[0]) then 1 + Span(s[1..], p) else 0
  }

  // ---------------------------------------------------------------------
  // White space and comments

  /** Position i - 1 of `s` lies inside a `#` comment: scanning back from it,
      a `#` comes before any line terminator. */
  predicate InComment(s: string, i: nat)
    requires i <= |s|
    decreases i
  {
    i > 0 && !IsLineTerminator(s[i - 1]) && (s[i - 1] == '#' || InComment(s, i - 1))
  }

  /** Character i of `s` is white space or comment text. */
  predicate Blank(s: string, i: nat)
    requires i < |s|
  {
    IsSpace(s[i]) || InComment(s, i + 1)
  }

  /** Every one of the first n characters of `s` is white space or comment text. */
  ghost predicate Skipped(s: string, n: nat)
    requires n <= |s|
  {
    forall i :: 0 <= i < n ==> Blank(s, i)
  }

  /** Removes the longest prefix made of white space and of comments, each
      comment running from `#` to the end of its line. */
  function SkipSpace(s: string): (r: string)
    ensures |r| <= |s|
    ensures r == [] || (!IsSpace(r[0]) && r[0] != '#')
    decreases |s|
  {
    if s == [] then s
    else if IsSpace(s[0]) then SkipSpace(s[1..])
    else if s[0] == '#' then SkipSpace(s[1 + Span(s[1..], NotLineTerminator)..])
    else s
  }

  /** The prefix SkipSpace removes is made of white space and comment text
      only, and what is left neither starts with white space or `#` nor
      continues an unfinished comment: the prefix removed is the longest one. */
  lemma {:induction false} SkipSpaceMaximal(s: string)
    ensures Skipped(s, |s| - |SkipSpace(s)|)
    ensures SkipSpace(s) != [] ==> !InComment(s, |s| - |SkipSpace(s)|)
    decreases |s|
  {
    if s == [] {
    } else if IsSpace(s[0]) {
      SkipSpaceMaximal(s[1..]);
      SkipWhiteStep(s);
    } else if s[0] == '#' {
      SkipSpaceMaximal(s[1 + Span(s[1..], NotLineTerminator)..]);
      SkipCommentStep(s);
    }
  }

  /** The comment branch of SkipSpace: `#`, the rest of the line, then what
      SkipSpace removes of the remainder. */
  lemma SkipCommentUnfold(s: string)
    requires s != [] && s[0] == '#'
    ensures SkipSpace(s) == SkipSpace(s[1 + Span(s[1..], NotLineTerminator)..])
  {}

  /** A comment open in s[d..] is open at the same place in s. */
  lemma {:induction false} InCommentShift(s: string, d: nat, i: nat)
    requires d + i <= |s| && InComment(s[d..], i)
    ensures InComment(s, d + i)
    decreases i
  {
    assert s[d..][i - 1] == s[d + i - 1];
    if s[d + i - 1] != '#' {
      InCommentShift(s, d, i - 1);
    }
  }

  /** A comment open at position n - 1 started after any line terminator
      before it. */
  lemma {:induction false} InCommentAfterBreak(s: string, p: nat, n: nat)
    requires p < n <= |s| && IsLineTerminator(s[p])
    ensures InComment(s, n) ==> p + 1 < n && InComment(s[p + 1..], n - p - 1)
    decreases n
  {
    if InComment(s, n) && s[n - 1] != '#' {
      InCommentAfterBreak(s, p, n - 1);
      assert s[p + 1..][n - p - 2] == s[n - 1];
    } else if InComment(s, n) {
      assert s[p + 1..][n - p - 2] == s[n - 1];
    }
  }

  lemma SkipWhiteStep(s: string)
    requires s != [] && IsSpace(s[0])
    requires Skipped(s[1..], |s| - 1 - |SkipSpace(s[1..])|)
    requires SkipSpace(s[1..]) != [] ==> !InComment(s[1..], |s| - 1 - |SkipSpace(s[1..])|)
    ensures Skipped(s, |s| - |SkipSpace(s)|)
    ensures SkipSpace(s) != [] ==> !InComment(s, |s| - |SkipSpace(s)|)
  {
    var t := s[1..];
    var nt := |t| - |SkipSpace(t)|;
    assert SkipSpace(s) == SkipSpace(t);
    forall i | 0 <= i < nt + 1
      ensures Blank(s, i)
    {
      if i > 0 && !IsSpace(s[i]) {
        assert Blank(t, i - 1);
        assert s[i] == t[i - 1];
        InCommentShift(s, 1, i);
      }
    }
    InCommentFromSpace(s, nt + 1);
  }

  /** A comment cannot reach back over a leading white-space character. */
  lemma {:induction false} InCommentFromSpace(s: string, n: nat)
    requires 0 < n <= |s| && IsSpace(s[0])
    ensures InComment(s, n) ==> n > 1 && InComment(s[1..], n - 1)
    decreases n
  {
    if InComment(s, n) && s[n - 1] != '#' {
      assert InComment(s, n - 1);
      InCommentFromSpace(s, n - 1);
      assert s[1..][n - 2] == s[n - 1];
    } else if InComment(s, n) {
      assert s[1..][n - 2] == s[n - 1];
    }
  }

  lemma SkipCommentStep(s: string)
    requires s != [] && s[0] == '#'
    requires var t := s[1 + Span(s[1..], NotLineTerminator)..];
             Skipped(t, |t| - |SkipSpace(t)|) && (SkipSpace(t) != [] ==> !InComment(t, |t| - |SkipSpace(t)|))
    ensures Skipped(s, |s| - |SkipSpace(s)|)
    ensures SkipSpace(s) != [] ==> !InComment(s, |s| - |SkipSpace(s)|)
  {
    var m := Span(s[1..], NotLineTerminator);
    var t := s[1 + m..];
    SkipCommentUnfold(s);
    var nt := |t| - |SkipSpace(t)|;
    CommentStepSkipped(s, m, nt);
    if SkipSpace(t) != [] {
      SkipSpaceSuffix(t);
      assert s[1 + m + nt] == SkipSpace(t)[0];
      CommentStepEnds(s, m, nt);
    }
  }

  lemma CommentStepSkipped(s: string, m: nat, nt: nat)
    requires s != [] && s[0] == '#' && m == Span(s[1..], NotLineTerminator)
    requires 1 + m + nt <= |s| && Skipped(s[1 + m..], nt)
    ensures Skipped(s, 1 + m + nt)
  {
    var t := s[1 + m..];
    forall i | 0 <= i < 1 + m + nt
      ensures Blank(s, i)
    {
      if i < 1 + m {
        CommentPrefix(s, m, i + 1);
      } else if !IsSpace(s[i]) {
        assert Blank(t, i - 1 - m);
        assert s[i] == t[i - 1 - m];
        InCommentShift(s, 1 + m, i - m);
      }
    }
  }

  lemma CommentStepEnds(s: string, m: nat, nt: nat)
    requires s != [] && s[0] == '#' && m == Span(s[1..], NotLineTerminator)
    requires 1 + m + nt < |s| && !IsSpace(s[1 + m + nt])
    requires !InComment(s[1 + m..], nt)
    ensures !InComment(s, 1 + m + nt)
  {
    var t := s[1 + m..];
    // the comment stops at a line terminator, which is white space and is removed
    assert IsLineTerminator(s[1 + m]);
    LineTerminatorIsSpace(s[1 + m]);
    assert nt > 0;
    InCommentAfterBreak(s, 1 + m, 1 + m + nt);
    assert t[1..] == s[2 + m..];
    if 1 < nt && InComment(t[1..], nt - 1) {
      InCommentShift(t, 1, nt - 1);
    }
  }

  lemma {:induction false} CommentPrefix(s: string, m: nat, i: nat)
    requires s != [] && s[0] == '#' && m == Span(s[1..], NotLineTerminator)
    requires 0 < i <= 1 + m
    ensures InComment(s, i)
    decreases i
  {
    if i > 1 {
      assert s[i - 1] == s[1..][i - 2];
      CommentPrefix(s, m, i - 1);
    }
  }

  /** What SkipSpace leaves is a suffix of its input. */
  lemma {:induction false} SkipSpaceSuffix(s: string)
    ensures SkipSpace(s) == s[|s| - |SkipSpace(s)|..]
    decreases |s|
  {
    if s != [] && IsSpace(s[0]) {
      SkipSpaceSuffix(s[1..]);
    } else if s != [] && s[0] == '#' {
      SkipSpaceSuffix(s[1 + Span(s[1..], NotLineTerminator)..]);
    }
  }

  /** Skipping twice removes nothing more. */
  lemma SkipSpaceIdempotent(s: string)
    ensures SkipSpace(SkipSpace(s)) == SkipSpace(s)
  {}

  /** Any white space or complete comment in front of the text is skipped. */
  lemma {:induction false} SkipSpaceLeading(w: string, s: string)
    requires forall i :: 0 <= i < |w| ==> IsSpace(w[i])
    ensures SkipSpace(w + s) == SkipSpace(s)
    decreases |w|
  {
    if w != [] {
      assert (w + s)[1..] == w[1..] + s;
      SkipSpaceLeading(w[1..], s);
    } else {
      assert w + s == s;
    }
  }

  // ---------------------------------------------------------------------
  // Primaries: string literal, number literal, word

  /** The value of a run of decimal digits, as `Number` computes it. */
  function DecimalValue(d: string): nat
    decreases |d|
  {
    if d == [] then 0
    else 10 * DecimalValue(d[..|d| - 1]) + (if IsDigit(d[|d| - 1]) then (d[|d| - 1] as int - '0' as int) else 0)
  }

  /** Length of the number literal at the start of p, 0 when there is none:
      a run of `\d` characters ending on a `\b` boundary. The maximal digit
      run counts only when no `\w` character follows it (backtracking to a
      shorter run cannot help, since a digit is itself a `\w` character). */
  function NumberLength(p: string): nat {
    var k := Span(p, IsDigit);
    if k > 0 && (k == |p| || !IsWordChar(p[k])) then k else 0
  }

  /** Index of the closing quote of a string literal starting at p[0], or |p|. */
  function QuoteEnd(p: string): nat
    requires p != []
  {
    1 + Span(p[1..], NotQuote)
  }

  datatype Primary = NoMatch | Matched(node: Expr, len: nat)

  /** The three alternatives of parseExpression, tried in order. */
  function MatchPrimary(p: string): (m: Primary)
    ensures m.Matched? ==> 0 < m.len <= |p|
    ensures m.NoMatch? <==> (p == [] || (!IsNameChar(p[0]) && !(p[0] == '"' && '"' in p[1..])))
    ensures m.Matched? && m.node.Value? && m.node.value.Str? ==>
              && m.len >= 2 && p[0] == '"' && p[m.len - 1] == '"'
              && m.node.value.text == p[1..m.len - 1] && '"' !in m.node.value.text
    ensures m.Matched? && m.node.Value? && m.node.value.Num? ==>
              && (forall i :: 0 <= i < m.len ==> IsDigit(p[i]))
              && (m.len == |p| || !IsWordChar(p[m.len]))
              && m.node.value.n == DecimalValue(p[..m.len])
    ensures m.Matched? && m.node.Word? ==>
              && m.node.name == p[..m.len]
              && (forall i :: 0 <= i < m.len ==> IsNameChar(p[i]))
              && (m.len == |p| || !IsNameChar(p[m.len]))
    ensures m.Matched? ==> m.node.Value? || m.node.Word?
    // a digit run glued to a letter, a digit or `_` is read as a word
    ensures (p != [] && IsDigit(p[0]) && Span(p, IsDigit) < |p| && IsWordChar(p[Span(p, IsDigit)]))
              ==> (m.Matched? && m.node.Word?)
  {
    if p != [] && p[0] == '"' && QuoteEnd(p) < |p| then
      var j := QuoteEnd(p);
      assert p[1..j] == p[1..][..j - 1];
      Matched(Value(Str(p[1..j])), j + 1)
    else if NumberLength(p) > 0 then
      var k := NumberLength(p);
      Matched(Value(Num(DecimalValue(p[..k]))), k)
    else if Span(p, IsNameChar) > 0 then
      var k := Span(p, IsNameChar);
      Matched(Word(p[..k]), k)
    else
      assert p != [] && p[0] == '"' ==> '"' !in p[1..] by {
        if p != [] && p[0] == '"' {
          var q := Span(p[1..], NotQuote);
          assert q == |p[1..]|;
        }
      }
      NoMatch
  }

  /** The number rule is tried before the word rule: a digit run that ends
      on a `\b` boundary, followed by the end of the text or by a character
      outside `\w` (as in `1+`, `3.5` or `1-`), is read as that number even
      where the word rule would match a longer text. */
  lemma NumberFirst(p: string)
    ensures NumberLength(p) > 0 <==>
              p != [] && IsDigit(p[0]) && (Span(p, IsDigit) == |p| || !IsWordChar(p[Span(p, IsDigit)]))
    ensures NumberLength(p) > 0 ==>
              MatchPrimary(p) == Matched(Value(Num(DecimalValue(p[..NumberLength(p)]))), NumberLength(p))
  {}

  // ---------------------------------------------------------------------
  // Expressions and applications

  datatype ParseError = InvalidExpression(text: string) | MissingSeparator | UnexpectedText

  /** The messages of the SyntaxErrors the parser throws. */
  function Message(e: ParseError): string {
    match e
    case InvalidExpression(text) => "Invalid Expression: " + text + " "
    case MissingSeparator => "There must be ',' or ')'"
    case UnexpectedText => "Unexpected text after program"
  }

  datatype Parsed<T> = Ok(value: T, rest: string) | Fail(error: ParseError)

  datatype ParseOutcome = Program(tree: Expr) | Rejected(error: ParseError)

  /** One full expression: a primary after skipped space, then its applications. */
  function ParseExpression(s: string): (r: Parsed<Expr>)
    ensures r.Ok? ==> |r.rest| < |s|
    ensures r.Ok? ==> SkipSpace(r.rest) == r.rest && (r.rest == [] || r.rest[0] != '(')
    ensures MatchPrimary(SkipSpace(s)).NoMatch? ==> r == Fail(InvalidExpression(SkipSpace(s)))
    decreases |s|, 0
  {
    var p := SkipSpace(s);
    match MatchPrimary(p)
    case NoMatch => Fail(InvalidExpression(p))
    case Matched(node, n) => ParseApply(node, p[n..])
  }

  /** If the next significant character is `(`, the node becomes the operator
      of an application whose arguments follow, and the result is examined
      again for a further `(`; otherwise the node is returned as it is. */
  function ParseApply(e: Expr, s: string): (r: Parsed<Expr>)
    ensures r.Ok? ==> |r.rest| <= |s|
    ensures r.Ok? ==> SkipSpace(r.rest) == r.rest && (r.rest == [] || r.rest[0] != '(')
    ensures (SkipSpace(s) == [] || SkipSpace(s)[0] != '(') ==> r == Ok(e, SkipSpace(s))
    ensures r.Ok? && SkipSpace(s) != [] && SkipSpace(s)[0] == '(' ==> r.value.Apply?
    decreases |s|, 2
  {
    var p := SkipSpace(s);
    if p == [] || p[0] != '(' then Ok(e, p)
    else
      match ParseArgs(p[1..], [])
      case Fail(err) => Fail(err)
      case Ok(args, rest) => ParseApply(Apply(e, args), rest)
  }

  /** The argument loop: `p` is the text after `(` or after a separator, `acc`
      the arguments collected so far. On success the arguments extend `acc` in
      source order and the rest is the text after the closing `)`. */
  function ParseArgs(p: string, acc: seq<Expr>): (r: Parsed<seq<Expr>>)
    ensures r.Ok? ==> |r.rest| < |p|
    ensures r.Ok? ==> acc <= r.value
    decreases |p|, 1
  {
    if p != [] && p[0] == ')' then Ok(acc, p[1..])
    else
      match ParseExpression(p)
      case Fail(err) => Fail(err)
      case Ok(a, rest) =>
        var q := SkipSpace(rest);
        if q != [] && q[0] == ',' then ParseArgs(SkipSpace(q[1..]), acc + [a])
        else if q != [] && q[0] == ')' then ParseArgs(q, acc + [a])
        else Fail(MissingSeparator)
  }

  /** A whole program: one expression and nothing after it but white space
      and comments. */
  function Parse(s: string): (r: ParseOutcome)
    ensures r.Program? <==> ParseExpression(s).Ok? && ParseExpression(s).rest == []
    ensures r.Program? ==> r.tree == ParseExpression(s).value
    ensures ParseExpression(s).Fail? ==> r == Rejected(ParseExpression(s).error)
    ensures ParseExpression(s).Ok? && ParseExpression(s).rest != [] ==> r == Rejected(UnexpectedText)
  {
    match ParseExpression(s)
    case Fail(err) => Rejected(err)
    case Ok(e, rest) => if |SkipSpace(rest)| > 0 then Rejected(UnexpectedText) else Program(e)
  }
}
