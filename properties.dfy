/** What the special forms, calls and `run` guarantee, stated over Semantics
    and proved from its definitions. */
module Properties {
  import Ast
  import opened Runtime
  import opened Builtins
  import opened Semantics
  import Grammar
  import Printer
  import Steps

  // ---------------------------------------------------------------------
  // define

  /** `define(x, e)` yields the value of e and binds x in the current scope
      only: x then reads as that value from the current scope, while every
      other name, and every scope older than the current one (the caller of
      a function, say), reads as before. */
  lemma {:induction false} DefineIsLocal(args: seq<Ast.Expr>, st: Store, sc: nat, fuel: nat, u: nat, y: string)
    requires InScope(st, sc) && |args| == 2 && args[0].Word?
    ensures DefineForm(args, st, sc, fuel).result == Eval(args[1], st, sc, fuel).result
    ensures var o := DefineForm(args, st, sc, fuel);
            o.result.Ok? ==> Lookup(o.store.frames, sc, args[0].name) == Some(o.result.value)
    ensures var o := DefineForm(args, st, sc, fuel);
            var e := Eval(args[1], st, sc, fuel);
            o.result.Ok? && u < |e.store.frames| && (y != args[0].name || u < sc) ==>
              Lookup(o.store.frames, u, y) == Lookup(e.store.frames, u, y)
  {
    var e := Eval(args[1], st, sc, fuel);
    if e.result.Ok? {
      LookupAfterBind(e.store.frames, sc, args[0].name, e.result.value, sc, args[0].name);
      if u < |e.store.frames| {
        LookupAfterBind(e.store.frames, sc, args[0].name, e.result.value, u, y);
      }
    }
  }

  /** `define` checks its arguments before evaluating anything: two are
      needed, and the first must be a word. */
  lemma DefineArity(args: seq<Ast.Expr>, st: Store, sc: nat, fuel: nat)
    requires InScope(st, sc)
    ensures |args| != 2 ==>
              EvalForm("define", args, st, sc, fuel) == Outcome(Err(SyntaxError("Wrong number of args to define")), st)
    ensures |args| == 2 && !args[0].Word? ==>
              EvalForm("define", args, st, sc, fuel) == Outcome(Err(SyntaxError("Invalid args to define")), st)
  {}

  // ---------------------------------------------------------------------
  // set

  /** `set(x, e)` evaluates e, then succeeds exactly when some scope on the
      chain from the current one, other than the root, already owns x. It then
      yields the value and x reads as it from the current scope; otherwise it
      fails with a ReferenceError and changes nothing more. Either way no
      other name reads differently from any scope. Since the root is never
      written, builtins cannot be reassigned with `set`. */
  lemma {:induction false} SetIsNearest(args: seq<Ast.Expr>, st: Store, sc: nat, fuel: nat, u: nat, y: string)
    requires InScope(st, sc) && |args| == 2 && args[0].Word?
    ensures var o := SetForm(args, st, sc, fuel);
            var e := Eval(args[1], st, sc, fuel);
            e.result.Err? ==> o == e
    ensures var o := SetForm(args, st, sc, fuel);
            var e := Eval(args[1], st, sc, fuel);
            e.result.Ok? ==>
              (o.result.Ok? <==>
                 exists t :: 1 <= t <= sc && OnChain(e.store.frames, sc, t) && args[0].name in e.store.frames[t].vars)
    ensures var o := SetForm(args, st, sc, fuel);
            var e := Eval(args[1], st, sc, fuel);
            e.result.Ok? && o.result.Ok? ==>
              o.result == e.result && Lookup(o.store.frames, sc, args[0].name) == Some(e.result.value)
    ensures var o := SetForm(args, st, sc, fuel);
            var e := Eval(args[1], st, sc, fuel);
            e.result.Ok? && o.result.Err? ==>
              o.result == Err(ReferenceError(args[0].name + " is not defined.")) && o.store == e.store
    ensures var o := SetForm(args, st, sc, fuel);
            var e := Eval(args[1], st, sc, fuel);
            e.result.Ok? && y != args[0].name && u < |e.store.frames| ==>
              Lookup(o.store.frames, u, y) == Lookup(e.store.frames, u, y)
  {
    var e := Eval(args[1], st, sc, fuel);
    var x := args[0].name;
    if e.result.Ok? {
      SetTargetNone(e.store.frames, sc, x);
      var t := SetTarget(e.store.frames, sc, x);
      if t.Some? {
        SetTargetIsLookup(e.store.frames, sc, x);
        SetTargetBind(e.store.frames, sc, x, e.result.value);
        if u < |e.store.frames| {
          LookupAfterBind(e.store.frames, t.value, x, e.result.value, u, y);
        }
      }
    }
  }

  /** `set` makes the same two checks as `define`, with its own messages. */
  lemma SetArity(args: seq<Ast.Expr>, st: Store, sc: nat, fuel: nat)
    requires InScope(st, sc)
    ensures |args| != 2 ==>
              EvalForm("set", args, st, sc, fuel) == Outcome(Err(SyntaxError("Wrong number of args to set")), st)
    ensures |args| == 2 && !args[0].Word? ==>
              EvalForm("set", args, st, sc, fuel) == Outcome(Err(SyntaxError("Invalid args to set")), st)
  {}

  // ---------------------------------------------------------------------
  // if

  /** Only `false` selects the else branch: the number 0 and the empty
      string both select the then branch, and exactly one branch is
      evaluated. */
  lemma IfTruthiness(thn: Ast.Expr, els: Ast.Expr, st: Store, sc: nat, fuel: nat)
    requires InScope(st, sc) && fuel >= 2
    ensures IfForm([Ast.Value(Ast.Num(0)), thn, els], st, sc, fuel) == Eval(thn, st, sc, fuel)
    ensures IfForm([Ast.Value(Ast.Str("")), thn, els], st, sc, fuel) == Eval(thn, st, sc, fuel)
  {}

  /** `array()` evaluates to an empty array and leaves the store alone. */
  lemma EmptyArrayYields(st: Store, sc: nat, fuel: nat)
    requires InScope(st, sc) && fuel > 0
    requires Lookup(st.frames, sc, "array") == Some(Native(MakeArray))
    ensures Eval(Ast.Apply(Ast.Word("array"), []), st, sc, fuel + 1) == Outcome(Ok(Arr([])), st)
  {
    Steps.WordRule("array", st, sc, fuel, Native(MakeArray));
    Steps.ArgsNilRule([], [], st, sc, fuel);
    assert Call(Native(MakeArray), [], st, fuel) == Outcome(Ok(Arr([])), st);
    Steps.ApplyRule(Ast.Word("array"), [], st, sc, fuel, Native(MakeArray), st, [], st,
                    Outcome(Ok(Arr([])), st));
  }

  /** An empty array, made by `array()`, selects the then branch too. */
  lemma IfEmptyArray(thn: Ast.Expr, els: Ast.Expr, st: Store, sc: nat, fuel: nat)
    requires InScope(st, sc) && fuel >= 2
    requires Lookup(st.frames, sc, "array") == Some(Native(MakeArray))
    ensures Eval(Steps.Ap("if", [Steps.Ap("array", []), thn, els]), st, sc, fuel + 1) == Eval(thn, st, sc, fuel)
  {
    EmptyArrayYields(st, sc, fuel - 1);
    Steps.IfRule(Steps.Ap("array", []), thn, els, st, sc, fuel, Arr([]), st);
  }

  /** The word `false`, bound to the boolean false, selects the else branch. */
  lemma IfFalse(thn: Ast.Expr, els: Ast.Expr, st: Store, sc: nat, fuel: nat)
    requires InScope(st, sc) && fuel >= 2
    requires Lookup(st.frames, sc, "false") == Some(Bool(false))
    ensures IfForm([Ast.Word("false"), thn, els], st, sc, fuel) == Eval(els, st, sc, fuel)
  {}

  /** `if` needs exactly three arguments and evaluates none when it has
      another number. */
  lemma IfArity(args: seq<Ast.Expr>, st: Store, sc: nat, fuel: nat)
    requires InScope(st, sc) && |args| != 3
    ensures EvalForm("if", args, st, sc, fuel) == Outcome(Err(SyntaxError("Wrong number of args to if")), st)
  {}

  // ---------------------------------------------------------------------
  // do

  lemma {:induction false} DoLoopShift(xs: seq<Ast.Expr>, ys: seq<Ast.Expr>, j: nat, last: Value, st: Store, sc: nat, fuel: nat)
    requires InScope(st, sc) && j <= |ys| && ValueOk(last, |st.frames|)
    ensures DoLoop(xs + ys, |xs| + j, last, st, sc, fuel) == DoLoop(ys, j, last, st, sc, fuel)
    decreases |ys| - j
  {
    if j < |ys| {
      assert (xs + ys)[|xs| + j] == ys[j];
      var o := Eval(ys[j], st, sc, fuel);
      if o.result.Ok? {
        DoLoopShift(xs, ys, j + 1, o.result.value, o.store, sc, fuel);
      }
    }
  }

  lemma {:induction false} DoLoopSplit(xs: seq<Ast.Expr>, ys: seq<Ast.Expr>, i: nat, last: Value, st: Store, sc: nat, fuel: nat)
    requires InScope(st, sc) && i <= |xs| && ValueOk(last, |st.frames|)
    ensures var o := DoLoop(xs, i, last, st, sc, fuel);
            DoLoop(xs + ys, i, last, st, sc, fuel) ==
              if o.result.Err? then o else DoLoop(ys, 0, o.result.value, o.store, sc, fuel)
    decreases |xs| - i
  {
    if i == |xs| {
      DoLoopShift(xs, ys, 0, last, st, sc, fuel);
    } else {
      assert (xs + ys)[i] == xs[i];
      var o := Eval(xs[i], st, sc, fuel);
      if o.result.Ok? {
        DoLoopSplit(xs, ys, i + 1, o.result.value, o.store, sc, fuel);
      }
    }
  }

  /** `do` with the arguments xs then ys evaluates `do(xs)` and, unless it
      failed, goes on with ys from the store it left; an empty `do` yields
      `false`, and a `do` of one expression is that expression. */
  lemma DoSequence(xs: seq<Ast.Expr>, ys: seq<Ast.Expr>, e: Ast.Expr, st: Store, sc: nat, fuel: nat)
    requires InScope(st, sc)
    ensures var o := EvalForm("do", xs, st, sc, fuel);
            EvalForm("do", xs + ys, st, sc, fuel) ==
              if o.result.Err? then o else DoLoop(ys, 0, o.result.value, o.store, sc, fuel)
    ensures EvalForm("do", [], st, sc, fuel) == Outcome(Ok(Bool(false)), st)
    ensures EvalForm("do", [e], st, sc, fuel) == Eval(e, st, sc, fuel)
  {
    DoLoopSplit(xs, ys, 0, Bool(false), st, sc, fuel);
    var o := Eval(e, st, sc, fuel);
    if o.result.Ok? {
      assert DoLoop([e], 1, o.result.value, o.store, sc, fuel) == o;
    }
  }

  // ---------------------------------------------------------------------
  // while

  /** A `while` that completes yields `false`; one whose condition is false
      at once never evaluates its body. */
  lemma WhileYieldsFalse(args: seq<Ast.Expr>, st: Store, sc: nat, fuel: nat)
    requires InScope(st, sc)
    ensures EvalForm("while", args, st, sc, fuel).result.Ok? ==>
              EvalForm("while", args, st, sc, fuel).result.value == Bool(false)
    ensures |args| == 2 && Eval(args[0], st, sc, fuel).result == Ok(Bool(false)) ==>
              EvalForm("while", args, st, sc, fuel) == Outcome(Ok(Bool(false)), Eval(args[0], st, sc, fuel).store)
    ensures |args| != 2 ==>
              EvalForm("while", args, st, sc, fuel) == Outcome(Err(SyntaxError("Wrong number of args to while")), st)
  {
    if |args| == 2 {
      assert WhileForm(args, st, sc, fuel) == WhileLoop(args[0], args[1], st, sc, fuel);
    }
  }

  // ---------------------------------------------------------------------
  // fun and calls

  /** `fun(p1, …, pn, body)` evaluates nothing and changes nothing: it needs a
      body, every parameter must be a word, and the function value remembers
      the parameter names in order, the body and the current scope. */
  lemma FunMakesClosure(args: seq<Ast.Expr>, st: Store, sc: nat)
    requires InScope(st, sc)
    ensures EvalForm("fun", args, st, sc, 0).store == st
    ensures |args| == 0 ==> EvalForm("fun", args, st, sc, 0).result == Err(SyntaxError("Functions need a body."))
    ensures |args| > 0 && (exists i :: 0 <= i < |args| - 1 && !args[i].Word?) ==>
              EvalForm("fun", args, st, sc, 0).result == Err(TypeError("Parameter names must be words"))
    ensures |args| > 0 && (forall i :: 0 <= i < |args| - 1 ==> args[i].Word?) ==>
              var r := EvalForm("fun", args, st, sc, 0).result;
              && r.Ok? && r.value.Closure? && r.value.body == args[|args| - 1] && r.value.scope == sc
              && |r.value.params| == |args| - 1
              && forall i :: 0 <= i < |args| - 1 ==> r.value.params[i] == args[i].name
  {
    if |args| > 0 {
      var ps := args[..|args| - 1];
      assert forall i :: 0 <= i < |args| - 1 ==> ps[i] == args[i];
    }
  }

  /** Lexical scope: a call evaluates the body in a new scope whose parent is
      the scope the function was made in, whichever scope calls it. There
      each parameter reads as its argument (the last one, for a repeated
      name) and every other name as it reads where the function was made. */
  lemma CallIsLexical(ps: seq<string>, body: Ast.Expr, s: nat, vals: seq<Value>, st: Store, fuel: nat, i: nat, x: string)
    requires StoreOk(st) && ValueOk(Closure(ps, body, s), |st.frames|) && ValuesOk(vals, |st.frames|)
    requires |vals| == |ps|
    ensures var inner := PushFrame(st, BindParams(ps, vals), s);
            && InScope(inner, |st.frames|)
            && Call(Closure(ps, body, s), vals, st, fuel) == Eval(body, inner, |st.frames|, fuel)
    ensures var inner := PushFrame(st, BindParams(ps, vals), s);
            Chained(inner.frames) &&
            (i < |ps| && (forall j :: i < j < |ps| ==> ps[j] != ps[i]) ==>
               Lookup(inner.frames, |st.frames|, ps[i]) == Some(vals[i]))
    ensures var inner := PushFrame(st, BindParams(ps, vals), s);
            Chained(inner.frames) &&
            (x !in ps ==> Lookup(inner.frames, |st.frames|, x) == Lookup(st.frames, s, x))
  {
    BindParamsOk(ps, vals, |st.frames|);
    PushFrameOk(st, BindParams(ps, vals), s);
    if i < |ps| && (forall j :: i < j < |ps| ==> ps[j] != ps[i]) {
      BindParamsPositional(ps, vals, i);
      PushedLookup(st.frames, BindParams(ps, vals), s, ps[i]);
    }
    PushedLookup(st.frames, BindParams(ps, vals), s, x);
  }

  /** A function value checks the number of arguments before anything else. */
  lemma CallArity(ps: seq<string>, body: Ast.Expr, s: nat, vals: seq<Value>, st: Store, fuel: nat)
    requires StoreOk(st) && ValueOk(Closure(ps, body, s), |st.frames|) && ValuesOk(vals, |st.frames|)
    requires |vals| != |ps|
    ensures Call(Closure(ps, body, s), vals, st, fuel) == Outcome(Err(TypeError("Wrong number of arguments")), st)
  {}

  // ---------------------------------------------------------------------
  // Applications

  /** A special form is recognised by the operator's name before any lookup,
      so binding that name in a scope does not change what the form does. */
  lemma SpecialFormsFirst(name: string, args: seq<Ast.Expr>, st: Store, sc: nat, fuel: nat)
    requires InScope(st, sc) && name in SpecialForms
    ensures Eval(Ast.Apply(Ast.Word(name), args), st, sc, fuel + 1) == EvalForm(name, args, st, sc, fuel)
  {}

  /** The operator is evaluated first; when it is not a function the
      application fails with a TypeError before any argument is evaluated,
      so from the store the operator left. */
  lemma OperatorFirst(op: Ast.Expr, args: seq<Ast.Expr>, st: Store, sc: nat, fuel: nat)
    requires InScope(st, sc) && !(op.Word? && op.name in SpecialForms)
    requires Eval(op, st, sc, fuel).result.Ok? && !IsFunction(Eval(op, st, sc, fuel).result.value)
    ensures Eval(Ast.Apply(op, args), st, sc, fuel + 1) ==
              Outcome(Err(TypeError("Applying a non-function")), Eval(op, st, sc, fuel).store)
  {}

  // ---------------------------------------------------------------------
  // run

  /** Each run starts in a fresh scope below the root, from which exactly the
      builtins are visible, and no run changes the root: what one program
      defines is invisible to the next. */
  lemma RunIsFresh(program: string, st: Store, fuel: nat, x: string)
    requires StoreOk(st) && st.frames[0] == TopFrame()
    ensures Run(program, st, fuel).store.frames[0] == TopFrame()
    ensures var start := PushFrame(st, map[], 0);
            Chained(start.frames) &&
            Lookup(start.frames, |st.frames|, x) == if x in TopBindings() then Some(TopBindings()[x]) else None
  {
    PushedLookup(st.frames, map[], 0, x);
  }

  /** A program that does not parse is rejected with the parser's message
      before anything is evaluated. */
  lemma RunRejects(program: string, st: Store, fuel: nat)
    requires StoreOk(st) && Grammar.Parse(program).Rejected?
    ensures Run(program, st, fuel) ==
              Outcome(Err(SyntaxError(Grammar.Message(Grammar.Parse(program).error))), st)
  {}

  /** Running the printed form of a tree evaluates that tree. */
  lemma RunPrinted(e: Ast.Expr, st: Store, fuel: nat)
    requires StoreOk(st) && Printer.Printable(e)
    ensures StoreOk(PushFrame(st, map[], 0))
    ensures Run(Printer.Show(e), st, fuel) == Eval(e, PushFrame(st, map[], 0), |st.frames|, fuel)
  {
    Printer.PrintThenParse(e);
    PushFrameOk(st, map[], 0);
  }
}
