/** What evaluating a tree does, as functions from a store to an outcome.

    Evaluation need not terminate (`while`, recursion), so every function
    takes fuel: each nested evaluation and each iteration of `while` uses one
    unit, and running out yields OutOfFuel. Every function returns the store
    as it is when the result, or the first error, is produced. */
module Semantics {
  import Ast
  import opened Runtime
  import opened Builtins
  import Grammar

  datatype Outcome<T> = Outcome(result: Result<T>, store: Store)

  /** How an evaluation may change the store: frames are only added, no
      frame ever gets another parent, the root frame is never changed and
      output is only appended. */
  predicate Grows(st: Store, st2: Store) {
    && |st.frames| <= |st2.frames|
    && (forall i :: 0 <= i < |st.frames| ==> st2.frames[i].parent == st.frames[i].parent)
    && (|st.frames| > 0 ==> st2.frames[0] == st.frames[0])
    && st.output <= st2.output
  }

  /** The store stays well formed and only grows, and a value produced refers
      only to frames of the new store. */
  predicate After(st: Store, o: Outcome<Value>) {
    && StoreOk(o.store)
    && Grows(st, o.store)
    && (o.result.Ok? ==> ValueOk(o.result.value, |o.store.frames|))
  }

  /** The names dispatched before any lookup. */
  const SpecialForms: set<string> := {"if", "do", "define", "while", "fun", "set"}

  function Literal(a: Ast.Atom): (v: Value)
    ensures a.Str? ==> v == Str(a.text)
    ensures a.Num? ==> v == Num(a.n)
  {
    match a
    case Str(t) => Value.Str(t)
    case Num(n) => Value.Num(n)
  }

  /** Evaluation of one tree in the scope that is frame sc. */
  function Eval(e: Ast.Expr, st: Store, sc: nat, fuel: nat): (o: Outcome<Value>)
    requires InScope(st, sc)
    ensures After(st, o)
    ensures fuel == 0 ==> o.result == Err(OutOfFuel)
    decreases fuel, 0, 0
  {
    if fuel == 0 then Outcome(Err(OutOfFuel), st)
    else match e
      case Value(a) => Outcome(Ok(Literal(a)), st)
      case Word(x) =>
        LookupOk(st, sc, x);
        (match Lookup(st.frames, sc, x)
         case None => Outcome(Err(ReferenceError("Undefined binding: " + x)), st)
         case Some(v) => Outcome(Ok(v), st))
      case Apply(op, args) =>
        if op.Word? && op.name in SpecialForms then EvalForm(op.name, args, st, sc, fuel - 1)
        else Application(op, args, st, sc, fuel - 1)
  }

  /** An ordinary application: the operator, which must be a function, then
      the arguments from left to right, then the call. */
  function Application(op: Ast.Expr, args: seq<Ast.Expr>, st: Store, sc: nat, fuel: nat): (o: Outcome<Value>)
    requires InScope(st, sc)
    ensures After(st, o)
    decreases fuel, 2, 0
  {
    var f := Eval(op, st, sc, fuel);
    if f.result.Err? then f
    else if !IsFunction(f.result.value) then Outcome(Err(TypeError("Applying a non-function")), f.store)
    else
      var a := EvalArgs(args, 0, [], f.store, sc, fuel);
      if a.result.Err? then Outcome(Err(a.result.error), a.store)
      else
        ValueOkGrows(f.result.value, |f.store.frames|, |a.store.frames|);
        Call(f.result.value, a.result.value, a.store, fuel)
  }

  /** The arguments evaluated left to right, from argument i on, after
      the values acc of the arguments before it. */
  function EvalArgs(args: seq<Ast.Expr>, i: nat, acc: seq<Value>, st: Store, sc: nat, fuel: nat)
    : (o: Outcome<seq<Value>>)
    requires InScope(st, sc) && i <= |args| && ValuesOk(acc, |st.frames|)
    ensures StoreOk(o.store) && Grows(st, o.store)
    ensures o.result.Ok? ==> ValuesOk(o.result.value, |o.store.frames|)
    ensures o.result.Ok? ==> |o.result.value| == |acc| + |args| - i
    decreases fuel, 1, |args| - i
  {
    if i == |args| then Outcome(Ok(acc), st)
    else
      var o := Eval(args[i], st, sc, fuel);
      if o.result.Err? then Outcome(Err(o.result.error), o.store)
      else
        ValuesOkGrows(acc, |st.frames|, |o.store.frames|);
        assert ValuesOk(acc + [o.result.value], |o.store.frames|);
        EvalArgs(args, i + 1, acc + [o.result.value], o.store, sc, fuel)
  }

  /** Calling a function value with argument values. A closure checks the
      argument count and runs its body in a fresh frame whose parent is the
      closure's own scope; the calling scope plays no part. */
  function Call(f: Value, vals: seq<Value>, st: Store, fuel: nat): (o: Outcome<Value>)
    requires StoreOk(st) && ValueOk(f, |st.frames|) && ValuesOk(vals, |st.frames|)
    ensures After(st, o)
    decreases fuel, 1, 0
  {
    match f
    case Closure(params, body, scope) =>
      if |vals| != |params| then Outcome(Err(TypeError("Wrong number of arguments")), st)
      else
        BindParamsOk(params, vals, |st.frames|);
        PushFrameOk(st, BindParams(params, vals), scope);
        Eval(body, PushFrame(st, BindParams(params, vals), scope), |st.frames|, fuel)
    case Native(op) =>
      ApplyBuiltinOk(op, vals, |st.frames|);
      if op == Print then Outcome(ApplyBuiltin(op, vals), st.(output := st.output + [Arg(vals, 0)]))
      else Outcome(ApplyBuiltin(op, vals), st)
    case _ => Outcome(Err(TypeError("Applying a non-function")), st)
  }

  /** The special form called name, on its unevaluated arguments. */
  function EvalForm(name: string, args: seq<Ast.Expr>, st: Store, sc: nat, fuel: nat): (o: Outcome<Value>)
    requires name in SpecialForms && InScope(st, sc)
    ensures After(st, o)
    decreases fuel, 3, 0
  {
    if name == "if" then IfForm(args, st, sc, fuel)
    else if name == "do" then DoLoop(args, 0, Bool(false), st, sc, fuel)
    else if name == "define" then DefineForm(args, st, sc, fuel)
    else if name == "while" then WhileForm(args, st, sc, fuel)
    else if name == "fun" then FunForm(args, st, sc)
    else SetForm(args, st, sc, fuel)
  }

  function IfForm(args: seq<Ast.Expr>, st: Store, sc: nat, fuel: nat): (o: Outcome<Value>)
    requires InScope(st, sc)
    ensures After(st, o)
    decreases fuel, 2, 0
  {
    if |args| != 3 then Outcome(Err(SyntaxError("Wrong number of args to if")), st)
    else
      var c := Eval(args[0], st, sc, fuel);
      if c.result.Err? then c
      else if c.result.value != Bool(false) then Eval(args[1], c.store, sc, fuel)
      else Eval(args[2], c.store, sc, fuel)
  }

  /** `do`, from argument i on, `last` being the value of the argument before
      it (`false` before the first). */
  function DoLoop(args: seq<Ast.Expr>, i: nat, last: Value, st: Store, sc: nat, fuel: nat): (o: Outcome<Value>)
    requires InScope(st, sc) && i <= |args| && ValueOk(last, |st.frames|)
    ensures After(st, o)
    decreases fuel, 1, |args| - i
  {
    if i == |args| then Outcome(Ok(last), st)
    else
      var o := Eval(args[i], st, sc, fuel);
      if o.result.Err? then o
      else DoLoop(args, i + 1, o.result.value, o.store, sc, fuel)
  }

  function DefineForm(args: seq<Ast.Expr>, st: Store, sc: nat, fuel: nat): (o: Outcome<Value>)
    requires InScope(st, sc)
    ensures After(st, o)
    decreases fuel, 2, 0
  {
    if |args| != 2 then Outcome(Err(SyntaxError("Wrong number of args to define")), st)
    else if !args[0].Word? then Outcome(Err(SyntaxError("Invalid args to define")), st)
    else
      var o := Eval(args[1], st, sc, fuel);
      if o.result.Err? then o
      else
        BindOk(o.store, sc, args[0].name, o.result.value);
        Outcome(o.result, o.store.(frames := Bind(o.store.frames, sc, args[0].name, o.result.value)))
  }

  function WhileForm(args: seq<Ast.Expr>, st: Store, sc: nat, fuel: nat): (o: Outcome<Value>)
    requires InScope(st, sc)
    ensures After(st, o)
    decreases fuel, 2, 0
  {
    if |args| != 2 then Outcome(Err(SyntaxError("Wrong number of args to while")), st)
    else WhileLoop(args[0], args[1], st, sc, fuel)
  }

  /** The loop of `while`: each iteration evaluates the condition and, unless
      it is `false`, the body; a completed loop always yields `false`. */
  function WhileLoop(cond: Ast.Expr, body: Ast.Expr, st: Store, sc: nat, fuel: nat): (o: Outcome<Value>)
    requires InScope(st, sc)
    ensures After(st, o)
    ensures o.result.Ok? ==> o.result.value == Bool(false)
    decreases fuel, 1, 0
  {
    var c := Eval(cond, st, sc, fuel);
    if c.result.Err? then c
    else if c.result.value == Bool(false) then Outcome(Ok(Bool(false)), c.store)
    else
      var b := Eval(body, c.store, sc, fuel);
      if b.result.Err? then b
      else WhileLoop(cond, body, b.store, sc, fuel - 1)
  }

  /** The parameter names of `fun`: every argument but the last must be a
      word. */
  function ParamNames(ps: seq<Ast.Expr>): (r: Option<seq<string>>)
    ensures r.Some? <==> forall i :: 0 <= i < |ps| ==> ps[i].Word?
    ensures r.Some? ==> |r.value| == |ps| && forall i :: 0 <= i < |ps| ==> r.value[i] == ps[i].name
    decreases |ps|
  {
    if ps == [] then Some([])
    else
      var n := |ps| - 1;
      match ParamNames(ps[..n])
      case None => None
      case Some(names) => if ps[n].Word? then Some(names + [ps[n].name]) else None
  }

  function FunForm(args: seq<Ast.Expr>, st: Store, sc: nat): (o: Outcome<Value>)
    requires InScope(st, sc)
    ensures After(st, o)
  {
    if |args| == 0 then Outcome(Err(SyntaxError("Functions need a body.")), st)
    else match ParamNames(args[..|args| - 1])
      case None => Outcome(Err(TypeError("Parameter names must be words")), st)
      case Some(names) => Outcome(Ok(Closure(names, args[|args| - 1], sc)), st)
  }

  function SetForm(args: seq<Ast.Expr>, st: Store, sc: nat, fuel: nat): (o: Outcome<Value>)
    requires InScope(st, sc)
    ensures After(st, o)
    decreases fuel, 2, 0
  {
    if |args| != 2 then Outcome(Err(SyntaxError("Wrong number of args to set")), st)
    else if !args[0].Word? then Outcome(Err(SyntaxError("Invalid args to set")), st)
    else
      var o := Eval(args[1], st, sc, fuel);
      if o.result.Err? then o
      else match SetTarget(o.store.frames, sc, args[0].name)
        case None => Outcome(Err(ReferenceError(args[0].name + " is not defined.")), o.store)
        case Some(t) =>
          BindOk(o.store, t, args[0].name, o.result.value);
          Outcome(o.result, o.store.(frames := Bind(o.store.frames, t, args[0].name, o.result.value)))
  }

  /** The store before any program has run: the root scope alone. */
  function InitialStore(): (st: Store)
    ensures StoreOk(st) && |st.frames| == 1 && st.output == []
  {
    Store([TopFrame()], [])
  }

  /** `run(program)`: parse, then evaluate in a fresh child of the root. */
  function Run(program: string, st: Store, fuel: nat): (o: Outcome<Value>)
    requires StoreOk(st)
    ensures After(st, o)
  {
    match Grammar.Parse(program)
    case Rejected(err) => Outcome(Err(SyntaxError(Grammar.Message(err))), st)
    case Program(tree) =>
      PushFrameOk(st, map[], 0);
      Eval(tree, PushFrame(st, map[], 0), |st.frames|, fuel)
  }
}
