# Egg: a verified model of the parser and the evaluator

Egg is a small expression language. A program is one expression, and an
expression is one of three things:

- a string literal in double quotes;
- a decimal number;
- a word, with any number of applications `f(a, b, …)` after it.

White space and `#` comments may appear between tokens. The parser turns
program text into a syntax tree. The evaluator then runs the tree against a
chain of scopes:

- the root scope holds the builtins: `true`, `false`, `print`, the
  operators, `array`, `length` and `element`;
- each call of a function gets a new scope whose parent is the scope the
  function was made in;
- six special forms receive their arguments unevaluated: `if`, `do`,
  `define`, `while`, `fun` and `set`.

The project models both halves twice.

- **Pure definitions**. `Grammar` defines the parser and `Semantics` defines
  evaluation, both as total functions. Evaluation takes fuel, because an Egg
  program need not terminate.
- **Imperative procedures**. `Parser` keeps the argument loop of the parser.
  `Evaluator.Interpreter` is an object holding the scopes and the printed
  output, and its procedures update them in place with loops. Each of these
  is proved equal to its pure definition.

The properties are proved about the pure definitions, so they also hold of
the procedures. They include:

- printing a tree and parsing the text gives the tree back;
- every tree the parser produces can be printed;
- `define` is local, and `set` writes the nearest enclosing binding;
- scoping is lexical;
- only `false` is falsy;
- fuel never changes a finished result;
- the sample programs print what they are meant to print.

Modules:

| file | module | what it holds |
|---|---|---|
| ast.dfy | Ast | syntax trees |
| grammar.dfy | Grammar | the parser as functions |
| parser.dfy | Parser | the parser as procedures with the argument loop |
| printer.dfy | Printer | a printer and the round trip between printer and parser |
| samples.dfy | ParseSamples | the parser's behaviour on small inputs: comments, separators, trailing text |
| runtime.dfy | Runtime | values, scopes (frames), lookup, binding and the scope walk of `set` |
| builtins.dfy | Builtins | the root scope and its builtins |
| semantics.dfy | Semantics | evaluation as functions with fuel |
| evaluator.dfy | Evaluator | the interpreter object and its procedures |
| fuel.dfy | Fuel | more fuel gives the same outcome |
| properties.dfy | Properties | properties of the special forms, of calls and of `run` |
| steps.dfy | Steps | one-step evaluation rules |
| programs.dfy | Programs | the sample programs followed through the model |
| arrays.dfy | ArrayProgram | the array sample program followed through the model |

How JavaScript is represented:

- A JavaScript scope object and its prototype chain become a frame: a table
  of own bindings and the index of its parent frame. Frame 0 is the root
  scope.
- A closure refers to its scope by frame index. This is how several
  closures share one scope, and how `set` reaches a binding of an enclosing
  scope.
- A thrown exception becomes an `Err` result. The model keeps the
  exception's kind and message: SyntaxError, TypeError, ReferenceError or
  RangeError.
- Console output becomes the sequence of values given to `print`.

## Model

| member | source | states |
|---|---|---|
| Grammar.SkipSpace | parser.js:44-47 | what is left after skipping is no longer than the input and starts with neither white space nor `#` |
| Grammar.SkipSpaceMaximal | parser.js:44-47 | the removed prefix is all white space and comment text, and the prefix is the longest such one: no comment is left open at the cut |
| Grammar.SkipSpaceSuffix | parser.js:44-47 | what skipping leaves is a suffix of the input |
| Grammar.SkipSpaceIdempotent | parser.js:44-47 | skipping twice removes nothing more |
| Grammar.SkipSpaceLeading | parser.js:44-47 | any run of white space in front of a text is skipped entirely |
| Grammar.LineTerminatorIsSpace | parser.js:45 | every line terminator, which ends a comment, is itself white space |
| Grammar.Span | parser.js:16 | the longest prefix whose characters all satisfy the predicate: all of them do, and the next one does not |
| Grammar.MatchPrimary | parser.js:12-20 | what each alternative matches. A string literal is the text between two quotes and contains no quote. A number is a maximal digit run not followed by a word character, with its decimal value. A word is a maximal run of name characters. Nothing matches exactly when the text is empty or starts with neither a name character nor a closed quote. A digit run glued to a letter is read as a word |
| Grammar.NumberFirst | parser.js:14-17 | the number rule is tried before the word rule: a digit run followed by the end of the text or by a character outside `\w` (as in `1+` or `3.5`) is read as that number, with its decimal value and length |
| Grammar.ParseExpression | parser.js:9-22 | space is skipped first; when no primary matches, the error is an invalid expression carrying the remaining text; on success the rest is shorter, already skipped, and does not start with `(` |
| Grammar.ParseApply | parser.js:24-42 | without a `(` after skipped space the node is returned unchanged with the skipped rest; with one the result is an application; after it, no further `(` is pending |
| Grammar.ParseArgs | parser.js:31-40 | the arguments collected extend those found before, and the rest is shorter than the input |
| Grammar.Parse | parser.js:1-7 | a program is accepted exactly when one expression parses and nothing but space and comments follows; errors of the expression are passed on, and trailing text gives "Unexpected text after program" |
| Parser.Parse | parser.js:1-7 | the procedure computes exactly what Grammar.Parse defines |
| Parser.ParseExpression | parser.js:9-22 | the procedure computes exactly what Grammar.ParseExpression defines |
| Parser.ParseApply | parser.js:24-42 | the procedure, with its argument loop, computes exactly what Grammar.ParseApply defines |
| Printer.ShowNat | parser.js:14-15 | decimal notation without leading zeros, read back by the number rule as the same number |
| Printer.Digit | parser.js:14 | the digit character for a value below ten |
| Printer.MatchString | parser.js:12-13 | a quoted text without quotes matches as that string literal |
| Printer.MatchNumber | parser.js:14-15 | printed digits followed by a delimiter match as that number |
| Printer.MatchWord | parser.js:16-17 | a printable word followed by a delimiter matches as that word |
| Printer.ParseShown | parser.js:9-42 | printed text followed by a delimiter parses as the same tree, and the parser goes on as after building it |
| Printer.ParseArgsShown | parser.js:31-40 | a printed argument list and its `)` are read back as those arguments, in order |
| Printer.PrintThenParse | parser.js:1-47 | printing a printable tree and parsing the text gives that tree back |
| Printer.PrintThenParseWithSpace | parser.js:9-22 | white space in front of a printed tree and space or comments after it change nothing |
| Printer.ParseAfterSpace | parser.js:10 | white space in front of an expression changes nothing |
| Printer.ParseExpressionPrintable | parser.js:9-22 | every tree the parser builds has a written form |
| Printer.ParseThenPrint | parser.js:1-7 | a parsed program, printed and parsed again, gives the same tree, so the printer is exact for the parser's output |
| Printer.Unskipped | parser.js:25-28 | text starting with neither space nor `#` nor `(` is left as it stands after an expression |
| Printer.ApplyStep | parser.js:29-41 | an argument list after `(` makes the tree built so far the operator of an application |
| ParseSamples.WordFirst | parser.js:16-21 | a word followed by a delimiter is read as that word, then the parser looks for applications |
| ParseSamples.CallOf | parser.js:24-42 | a word followed by `(` and a complete argument list is an application of that word |
| ParseSamples.CallFails | parser.js:31-40 | an error in an argument list rejects the whole program with that error |
| ParseSamples.SkipComment | parser.js:45 | a comment up to a line break is skipped together with the line break |
| ParseSamples.CommentBeforeWord | parser.js:55 | a comment line in front of a word is skipped: the program is that word |
| ParseSamples.TwoCommentsSkipped | parser.js:56 | two comment lines with space around them are skipped |
| ParseSamples.CommentsBeforeCall | parser.js:56 | comments between an operator and its `(` do not stop the application: the program is a call with no arguments |
| ParseSamples.BlankEmptyArguments | parser.js:31-32 | an empty argument list written with a space inside, `f( )`, is rejected as an invalid expression |
| ParseSamples.TrailingComma | parser.js:35-36 | a comma right before `)` is accepted: `f(a,)` is a call with one argument |
| ParseSamples.MissingComma | parser.js:37-38 | two arguments with no comma between them are rejected with the separator error |
| ParseSamples.ArgsMissing | parser.js:31-39 | an argument followed by neither `,` nor `)`, or by the end of the text, gives the separator error |
| ParseSamples.TextAfterProgram | parser.js:3-4 | a second expression after the program is rejected as unexpected text |
| Runtime.Lookup | evaluator.js:121-126 | a name owned by the current scope is read from it; from the root, an unowned name is not found |
| Runtime.LookupOk | evaluator.js:121-126 | a value read from a well-formed store refers only to frames of that store |
| Runtime.Bind | evaluator.js:30 | binding changes the one entry of one frame and nothing else |
| Runtime.BindOk | evaluator.js:30 | binding a well-formed value keeps the store well formed |
| Runtime.LookupAfterBind | evaluator.js:30 | after binding x in frame t, x reads as the new value from t; other names, and frames older than t, read as before |
| Runtime.SetTarget | evaluator.js:71-81 | the frame `set` writes owns the name, lies on the chain and is never the root |
| Runtime.SetTargetIsLookup | evaluator.js:71-81 | the frame `set` writes holds the very binding that reading the name finds |
| Runtime.SetTargetNone | evaluator.js:74-82 | `set` finds no frame exactly when no non-root frame of the chain owns the name |
| Runtime.SetTargetBind | evaluator.js:74-78 | after `set` writes, reading the name from where `set` ran gives the new value |
| Runtime.BindParams | evaluator.js:60 | the call frame binds exactly the parameter names |
| Runtime.BindParamsPositional | evaluator.js:60 | each parameter gets the argument at its position, and for a repeated name the last one wins |
| Runtime.PushFrame | evaluator.js:59 | a call adds one frame whose parent is the closure's scope, and leaves the output alone |
| Runtime.PushedLookup | evaluator.js:59-61 | from a new call frame, a name reads as a parameter or else exactly as it reads from the closure's scope |
| Runtime.AppendedLookup | evaluator.js:59 | a new frame is invisible from the frames already there |
| Builtins.TopFrame | evaluator.js:85-116 | the root scope has no parent and holds no closures |
| Builtins.ArrayAsWritten | evaluator.js:99-102 | the array builtin as written: a single number argument gives that many holes, or a RangeError outside the valid lengths; other arguments become the elements |
| Builtins.ArraySingleNumber | evaluator.js:99-102 | `array(3)` gives three holes, not the array [3]; `array(-1)` fails |
| Builtins.MakeArrayOf | evaluator.js:99-102 | the intended array builtin: the array holds the arguments, in order |
| Builtins.ArrayCorrected | evaluator.js:99-102 | the builtin as written and the intended one agree exactly on the argument lists that are not a single number |
| Builtins.Arith | evaluator.js:95-97 | `+`, `-`, `*`, `<` and `>` are defined exactly on two numbers and compute the integer result |
| Builtins.Equality | evaluator.js:95-97 | `==` and `!=` are defined exactly on two primitives of one kind, where they compare by value |
| Builtins.LengthOf | evaluator.js:104-109 | the length of an array; anything else is a TypeError with the source's message |
| Builtins.ElementOf | evaluator.js:111-116 | the n-th element inside the array and `undefined` outside it or for a missing index; a non-array is a TypeError with the source's message |
| Builtins.ArithmeticLaws | evaluator.js:95-97 | `-` undoes `+`, `+` and `*` commute, and `<` is `>` with its operands swapped |
| Builtins.EqualityLaws | evaluator.js:95-97 | `!=` is defined where `==` is and answers the opposite; a value equals itself exactly when it is a primitive |
| Builtins.ArrayLengthElement | evaluator.js:99-116 | with `array` as written: from anything but a single number, one element per argument, read back in order by `element`; `array(n)` for a valid length n has length n and reads `undefined` at every index; any other single number is a RangeError |
| Builtins.ApplyBuiltinCases | evaluator.js:90-116 | calling a builtin: `print` returns its argument, `/` fails, the operators, `array` (as written), `length` and `element` give their own results, a missing argument being `undefined` |
| Builtins.ApplyBuiltinOk | evaluator.js:85-116 | a builtin returns nothing that refers to frames its arguments do not |
| Semantics.Literal | evaluator.js:119-120 | a string literal is that string and a number literal that number |
| Semantics.Eval | evaluator.js:118-140 | evaluation keeps the store well formed, only adds frames, never changes the root and only appends output; with no fuel left it runs out of fuel |
| Semantics.Application | evaluator.js:131-138 | an application keeps the store invariant |
| Semantics.EvalArgs | evaluator.js:134 | the arguments give one value each, in order, and keep the store invariant |
| Semantics.Call | evaluator.js:55-62 | a call keeps the store invariant |
| Semantics.EvalForm | evaluator.js:129-130 | a special form keeps the store invariant |
| Semantics.IfForm | evaluator.js:5-13 | `if` keeps the store invariant |
| Semantics.DoLoop | evaluator.js:15-21 | `do` keeps the store invariant |
| Semantics.DefineForm | evaluator.js:23-32 | `define` keeps the store invariant |
| Semantics.WhileForm | evaluator.js:34-42 | `while` keeps the store invariant |
| Semantics.WhileLoop | evaluator.js:38-41 | a loop that completes yields `false` |
| Semantics.ParamNames | evaluator.js:49-54 | the parameter names exist exactly when every parameter is a word, and they are those words in order |
| Semantics.FunForm | evaluator.js:44-63 | `fun` keeps the store invariant |
| Semantics.SetForm | evaluator.js:65-83 | `set` keeps the store invariant |
| Semantics.InitialStore | evaluator.js:85 | before any run, the store holds the root scope alone and no output |
| Semantics.Run | evaluator.js:142-144 | `run` keeps the store invariant |
| Properties.DefineIsLocal | evaluator.js:23-32 | `define` yields its value; the name then reads as that value from the current scope, while other names and older scopes read as before |
| Properties.DefineArity | evaluator.js:23-28 | `define` with other than two arguments is the SyntaxError "Wrong number of args to define", and with a non-word first argument "Invalid args to define"; in both cases nothing is evaluated and the store is unchanged |
| Properties.SetIsNearest | evaluator.js:65-83 | `set` succeeds exactly when a non-root scope on the chain owns the name. It then yields the value, which the name reads as from the current scope. Otherwise it is a ReferenceError with the source's message and nothing more changes. No other name reads differently |
| Properties.SetArity | evaluator.js:65-70 | `set` with other than two arguments is the SyntaxError "Wrong number of args to set", and with a non-word first argument "Invalid args to set"; in both cases nothing is evaluated and the store is unchanged |
| Properties.IfTruthiness | evaluator.js:8-9 | the number 0 and the empty string select the then branch |
| Properties.EmptyArrayYields | evaluator.js:99-102 | `array()` is the empty array and changes nothing |
| Properties.IfEmptyArray | evaluator.js:8-9 | an empty array selects the then branch |
| Properties.IfFalse | evaluator.js:10-11 | `false` selects the else branch |
| Properties.IfArity | evaluator.js:6-7 | `if` with other than three arguments is a SyntaxError and evaluates nothing |
| Properties.DoLoopShift | evaluator.js:17-19 | the loop of `do` from a position on depends only on the arguments from there on |
| Properties.DoLoopSplit | evaluator.js:17-19 | the loop of `do` over two lists runs the first, then, unless it failed, the second from where the first left off |
| Properties.DoSequence | evaluator.js:15-21 | `do(xs, ys)` is `do(xs)` followed by ys; an empty `do` yields `false`; `do(e)` is e |
| Properties.WhileYieldsFalse | evaluator.js:34-42 | a completed `while` yields `false`; a condition false at once runs no body; a wrong argument count is a SyntaxError |
| Properties.FunMakesClosure | evaluator.js:44-63 | `fun` evaluates nothing. It needs a body (a SyntaxError otherwise) and word parameters (a TypeError otherwise). It yields a closure over the current scope with the parameter names in order and the body |
| Properties.CallIsLexical | evaluator.js:55-62 | a call evaluates the body in a new scope whose parent is the closure's scope, whichever scope calls it. Each parameter reads as its argument, and every other name as where the function was made |
| Properties.CallArity | evaluator.js:56-58 | a call with the wrong number of arguments is a TypeError and changes nothing |
| Properties.SpecialFormsFirst | evaluator.js:129-130 | a special form is recognised by the operator's name before any lookup |
| Properties.OperatorFirst | evaluator.js:132-137 | a non-function operator is a TypeError raised before any argument is evaluated |
| Properties.RunIsFresh | evaluator.js:142-144 | each run starts in a fresh scope below the root that sees exactly the builtins, and no run changes the root |
| Properties.RunRejects | evaluator.js:142-144 | a program that does not parse is rejected with the parser's message before anything is evaluated |
| Properties.RunPrinted | evaluator.js:142-144 | running the printed form of a tree evaluates that tree in a fresh scope |
| Fuel.EvalMore | evaluator.js:118-140 | once an evaluation finishes, more fuel gives the same result and store |
| Fuel.ApplicationMore | evaluator.js:131-138 | the same for an application |
| Fuel.EvalArgsMore | evaluator.js:134 | the same for the arguments |
| Fuel.CallMore | evaluator.js:55-62 | the same for a call |
| Fuel.EvalFormMore | evaluator.js:129-130 | the same for a special form |
| Fuel.IfFormMore | evaluator.js:5-13 | the same for `if` |
| Fuel.DoLoopMore | evaluator.js:15-21 | the same for `do` |
| Fuel.DefineFormMore | evaluator.js:23-32 | the same for `define` |
| Fuel.WhileLoopMore | evaluator.js:38-41 | the same for the loop of `while` |
| Fuel.SetFormMore | evaluator.js:65-83 | the same for `set` |
| Fuel.RunMore | evaluator.js:142-144 | a program that finishes with some fuel finishes the same way with more |
| Evaluator.Interpreter.constructor | evaluator.js:85 | a new interpreter holds the root scope alone and no output |
| Evaluator.Interpreter.Run | evaluator.js:142-144 | the procedure leaves the interpreter as Semantics.Run says, with its result |
| Evaluator.Interpreter.Evaluate | evaluator.js:118-140 | the same, following Semantics.Eval |
| Evaluator.Interpreter.Application | evaluator.js:131-138 | the same, following Semantics.Application |
| Evaluator.Interpreter.EvaluateArgs | evaluator.js:134 | its loop over the arguments follows Semantics.EvalArgs |
| Evaluator.Interpreter.CallValue | evaluator.js:55-62 | its loop binding the parameters follows Semantics.Call |
| Evaluator.Interpreter.EvaluateForm | evaluator.js:129-130 | the dispatch follows Semantics.EvalForm |
| Evaluator.Interpreter.If | evaluator.js:5-13 | follows Semantics.IfForm |
| Evaluator.Interpreter.Do | evaluator.js:15-21 | its loop follows Semantics.DoLoop |
| Evaluator.Interpreter.Define | evaluator.js:23-32 | follows Semantics.DefineForm |
| Evaluator.Interpreter.While | evaluator.js:34-42 | its loop follows Semantics.WhileForm |
| Evaluator.Interpreter.Fun | evaluator.js:44-63 | its loop collecting the parameter names yields what Semantics.FunForm yields |
| Evaluator.Interpreter.Set | evaluator.js:65-83 | its walk towards the root follows Semantics.SetForm |
| Steps.RunStart | evaluator.js:142-144 | running a program evaluates its tree in a fresh scope below the interpreter's root |
| Steps.WordRule | evaluator.js:121-123 | a bound word evaluates to its value and changes nothing |
| Steps.UnboundWord | evaluator.js:121-126 | a word bound in no scope of the chain is the ReferenceError "Undefined binding: " followed by the word, and the store is unchanged |
| Steps.ApplyRule | evaluator.js:131-134 | an application evaluates the operator, then the arguments, then calls |
| Steps.PrintRule | evaluator.js:90-93 | `print(e)` yields the value of e and appends it to the output |
| Steps.DefineRule | evaluator.js:29-31 | `define(x, e)` binds x in the current frame to the value of e |
| Steps.SetRule | evaluator.js:73-77 | `set(x, e)` binds x in the frame `set` writes |
| Steps.FunRule | evaluator.js:48-55 | `fun` with word parameters yields a closure over the current scope |
| Steps.IfRule | evaluator.js:8-12 | `if` evaluates exactly the branch its condition selects |
| Steps.WhileStepRule | evaluator.js:38-40 | a true condition runs the body once and then the loop again |
| Programs.CountingLoop | evaluator.js:164-166 | the loop of the first sample adds 1 to 10 to total, leaving 55, and stops with count 11 |
| Programs.SumProgramPrints | evaluator.js:161-168 | the first sample program prints 55 |
| Programs.PlusOneProgram | evaluator.js:174-177 | the second sample program prints 11 and yields 11 |
| Programs.PowComputesPower | evaluator.js:184-187 | `pow(b, n)` yields b to the power n for every number b and every natural n, with fuel linear in n, and prints nothing |
| Programs.PowProgram | evaluator.js:183-189 | the third sample program prints 1024 |
| Programs.FCalledTwice | evaluator.js:213-214 | `f(4)(5)` yields 9 |
| Programs.ClosureProgram | evaluator.js:213-214 | the closure sample prints 9: the inner function adds its own argument to that of the call that made it |
| Programs.XSet | evaluator.js:226 | inside the call, `set(x, val)` writes the x of the scope where `setx` was made |
| Programs.SetProgram | evaluator.js:225-229 | the `set` sample prints 50 |
| ArrayProgram.LengthIsThree | evaluator.js:104-109 | `length(array)` inside the call is 3, the length of the argument |
| ArrayProgram.ElementAt | evaluator.js:111-116 | `element(array, i)` is entry i of the argument |
| ArrayProgram.ArrayOfThree | evaluator.js:99-102 | `array(1, 2, 3)` is the array of 1, 2 and 3 |
| ArrayProgram.SumsEntries | evaluator.js:199-201 | the loop adds 1, 2 and 3 to sum and stops with i equal to 3 |
| ArrayProgram.BodyYieldsSix | evaluator.js:197-202 | the body of sumArray on that array yields 6 |
| ArrayProgram.SumArrayProgram | evaluator.js:195-204 | the array sample program prints 6 |

## Left out

- Numbers are unbounded integers. JavaScript's floating point is not
  modelled: `/` always fails, and fractions, overflow and precision loss
  do not appear.
- Builtins.Arith: gives a meaning to `+`, `-`, `*`, `<` and `>` on two
  numbers only. Everything else fails with an error kind that JavaScript
  does not have:
  - `+` on strings, which JavaScript concatenates;
  - `<` and `>` on two strings, which JavaScript compares, so that
    `<("a", "b")` is true;
  - `-` and `*` on strings, which JavaScript turns into NaN;
  - every operator on two booleans, which JavaScript turns into numbers, so
    that `+(true, true)` is 2;
  - every operator on `undefined`, which JavaScript turns into NaN;
  - mixed operand kinds, which JavaScript coerces.
- Builtins.Equality: gives no meaning to JavaScript's loose equality
  between values of different kinds, or between objects and functions.
  These fail the same way.
- Builtins.ElementOf: an index that is neither a number nor missing, which
  JavaScript would read as a property name, fails the same way.
- Semantics.Eval: every evaluation takes fuel, and running out is an error
  of its own. Programs that never stop, and host stack exhaustion, appear
  only as running out of fuel. Fuel.EvalMore shows that fuel never changes
  a finished outcome.
- Console output is a sequence of values. How `console.log` formats them
  is not modelled.
- Strings are sequences of characters. JavaScript's UTF-16 units and
  surrogate pairs are not distinguished.
- Grammar.MatchPrimary: a number literal's value is its exact decimal
  value. JavaScript's `Number` would round long digit runs.
- Scopes are frames with a parent index rather than prototype objects, so
  the shared mutable JavaScript objects are not modelled as such.
  `Object.hasOwn` and `in` are the frame's own table and the chain walk.
- The sample programs are given to the evaluator as trees, not as text.
  Their texts are not proved to parse to those trees.
  Printer.PrintThenParse covers the printed form of every tree.
  Steps.RunStart connects `run` with the tree of a parsed program.
- The second `set` sample, evaluator.js:232-241, is not followed through
  the model. It is the array loop of evaluator.js:195-204 with `set` in
  place of `define`, and Properties.SetIsNearest states what its `set`
  calls do.
- The commented-out calls of `console.dir`, evaluator.js:148-159 and
  210-220, and of `console.log`, parser.js:49-56, only display trees. The
  comment examples among them are ParseSamples.CommentBeforeWord and
  ParseSamples.CommentsBeforeCall.
- Builtins.MakeArrayOf: the intended array builtin is stated and proved on
  its own. Evaluation runs the builtin as written, Builtins.ArrayAsWritten,
  so `array(3)` evaluates to three holes and `array(-1)` to a RangeError.
- The model follows the code in these places, where it is easy to
  misread:
  - `fun` with no arguments is a SyntaxError.
  - A non-function operator fails before its arguments are evaluated.
  - `f( )`, with a space inside the empty parentheses, is rejected,
    because the argument loop tests for `)` before skipping space.
  - A comma right before `)` is accepted.

## Findings

| source | as written | input that shows it | evidently intended | confidence | as-written member | corrected member |
|---|---|---|---|---|---|---|
| evaluator.js:99-102 | `array` passes its arguments to the Array constructor, which takes a single number argument as a length | `array(3)` gives an array of three holes, and `array(-1)` throws a RangeError | the array holding the arguments the caller wrote, here [3] | not executed | Builtins.ArrayAsWritten, Builtins.ArraySingleNumber, Builtins.ArrayLengthElement | Builtins.MakeArrayOf, Builtins.ArrayCorrected |
