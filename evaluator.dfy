/** The evaluator as it is written: an interpreter object holding the scopes
    and the printed output, whose procedures update them in place. `do`,
    `while`, the scope walk of `set`, the parameter list of `fun`, the binding
    of parameters and the evaluation of arguments are loops. Each procedure is
    proved to leave the interpreter exactly as the corresponding function of
    Semantics describes, with the same result, so everything proved about
    Semantics holds of these procedures. */
module Evaluator {
  import Ast
  import opened Runtime
  import opened Builtins
  import opened Semantics
  import Grammar
  import Parser

  class Interpreter {
    /** Every scope object created so far, the root scope at index 0. */
    var frames: seq<Frame>
    /** Every value given to `print`, in order. */
    var output: seq<Value>

    function Snapshot(): Store
      reads this
    {
      Store(frames, output)
    }

    ghost predicate Valid()
      reads this
    {
      StoreOk(Snapshot())
    }

    /** An interpreter holding only the root scope. */
    constructor ()
      ensures Snapshot() == InitialStore() && Valid()
    {
      frames := [TopFrame()];
      output := [];
    }

    /** `run(program)`. */
    method Run(program: string, fuel: nat) returns (r: Result<Value>)
      requires Valid()
      modifies this
      ensures Outcome(r, Snapshot()) == Semantics.Run(program, old(Snapshot()), fuel)
    {
      var parsed := Parser.Parse(program);
      if parsed.Rejected? {
        return Err(SyntaxError(Grammar.Message(parsed.error)));
      }
      var sc := |frames|;
      PushFrameOk(Snapshot(), map[], 0);
      frames := frames + [Frame(map[], Some(0))];
      r := Evaluate(parsed.tree, sc, fuel);
    }

    /** Evaluates e in the scope that is frame sc. */
    method Evaluate(e: Ast.Expr, sc: nat, fuel: nat) returns (r: Result<Value>)
      requires InScope(Snapshot(), sc)
      modifies this
      ensures Outcome(r, Snapshot()) == Eval(e, old(Snapshot()), sc, fuel)
      decreases fuel, 0, 0
    {
      if fuel == 0 {
        return Err(OutOfFuel);
      }
      match e
      case Value(a) =>
        r := Ok(Literal(a));
      case Word(x) =>
        var v := Lookup(frames, sc, x);
        if v.None? {
          r := Err(ReferenceError("Undefined binding: " + x));
        } else {
          r := Ok(v.value);
        }
      case Apply(op, args) =>
        if op.Word? && op.name in SpecialForms {
          r := EvaluateForm(op.name, args, sc, fuel - 1);
        } else {
          r := Application(op, args, sc, fuel - 1);
        }
    }

    method Application(op: Ast.Expr, args: seq<Ast.Expr>, sc: nat, fuel: nat) returns (r: Result<Value>)
      requires InScope(Snapshot(), sc)
      modifies this
      ensures Outcome(r, Snapshot()) == Semantics.Application(op, args, old(Snapshot()), sc, fuel)
      decreases fuel, 2, 0
    {
      var f := Evaluate(op, sc, fuel);
      if f.Err? {
        return f;
      }
      if !IsFunction(f.value) {
        return Err(TypeError("Applying a non-function"));
      }
      var n := |frames|;
      var vals := EvaluateArgs(args, sc, fuel);
      if vals.Err? {
        return Err(vals.error);
      }
      ValueOkGrows(f.value, n, |frames|);
      r := CallValue(f.value, vals.value, fuel);
    }

    /** The arguments, from left to right. */
    method EvaluateArgs(args: seq<Ast.Expr>, sc: nat, fuel: nat) returns (r: Result<seq<Value>>)
      requires InScope(Snapshot(), sc)
      modifies this
      ensures Outcome(r, Snapshot()) == EvalArgs(args, 0, [], old(Snapshot()), sc, fuel)
      decreases fuel, 1, 0
    {
      var vals: seq<Value> := [];
      var i := 0;
      while i < |args|
        invariant i <= |args| && InScope(Snapshot(), sc) && ValuesOk(vals, |frames|)
        invariant EvalArgs(args, i, vals, Snapshot(), sc, fuel) == EvalArgs(args, 0, [], old(Snapshot()), sc, fuel)
      {
        var n := |frames|;
        var v := Evaluate(args[i], sc, fuel);
        if v.Err? {
          return Err(v.error);
        }
        ValuesOkGrows(vals, n, |frames|);
        vals := vals + [v.value];
        i := i + 1;
      }
      r := Ok(vals);
    }

    /** Calling a function value: a closure binds its parameters one by one
        in a new scope whose parent is the closure's scope; `print` writes to
        the output. */
    method CallValue(f: Value, vals: seq<Value>, fuel: nat) returns (r: Result<Value>)
      requires StoreOk(Snapshot()) && ValueOk(f, |frames|) && ValuesOk(vals, |frames|)
      modifies this
      ensures Outcome(r, Snapshot()) == Call(f, vals, old(Snapshot()), fuel)
      decreases fuel, 1, 0
    {
      match f
      case Closure(params, body, scope) =>
        if |vals| != |params| {
          return Err(TypeError("Wrong number of arguments"));
        }
        var local := |frames|;
        frames := frames + [Frame(map[], Some(scope))];
        var i := 0;
        while i < |params|
          invariant i <= |params|
          invariant frames == old(frames) + [Frame(BindParams(params[..i], vals[..i]), Some(scope))]
          invariant output == old(output)
        {
          assert params[..i + 1][..i] == params[..i] && vals[..i + 1][..i] == vals[..i];
          frames := frames[local := Frame(frames[local].vars[params[i] := vals[i]], frames[local].parent)];
          i := i + 1;
        }
        assert params[..i] == params && vals[..i] == vals;
        BindParamsOk(params, vals, local);
        PushFrameOk(old(Snapshot()), BindParams(params, vals), scope);
        r := Evaluate(body, local, fuel);
      case Native(op) =>
        ApplyBuiltinOk(op, vals, |frames|);
        if op == Print {
          output := output + [Arg(vals, 0)];
        }
        r := ApplyBuiltin(op, vals);
      case _ =>
        r := Err(TypeError("Applying a non-function"));
    }

    /** Runs the special form called name on its unevaluated arguments. */
    method EvaluateForm(name: string, args: seq<Ast.Expr>, sc: nat, fuel: nat) returns (r: Result<Value>)
      requires name in SpecialForms && InScope(Snapshot(), sc)
      modifies this
      ensures Outcome(r, Snapshot()) == EvalForm(name, args, old(Snapshot()), sc, fuel)
      decreases fuel, 3, 0
    {
      if name == "if" {
        r := If(args, sc, fuel);
      } else if name == "do" {
        r := Do(args, sc, fuel);
      } else if name == "define" {
        r := Define(args, sc, fuel);
      } else if name == "while" {
        r := While(args, sc, fuel);
      } else if name == "fun" {
        r := Fun(args, sc);
      } else {
        r := Set(args, sc, fuel);
      }
    }

    method If(args: seq<Ast.Expr>, sc: nat, fuel: nat) returns (r: Result<Value>)
      requires InScope(Snapshot(), sc)
      modifies this
      ensures Outcome(r, Snapshot()) == IfForm(args, old(Snapshot()), sc, fuel)
      decreases fuel, 2, 0
    {
      if |args| != 3 {
        return Err(SyntaxError("Wrong number of args to if"));
      }
      var c := Evaluate(args[0], sc, fuel);
      if c.Err? {
        return c;
      }
      if c.value != Bool(false) {
        r := Evaluate(args[1], sc, fuel);
      } else {
        r := Evaluate(args[2], sc, fuel);
      }
    }

    method Do(args: seq<Ast.Expr>, sc: nat, fuel: nat) returns (r: Result<Value>)
      requires InScope(Snapshot(), sc)
      modifies this
      ensures Outcome(r, Snapshot()) == DoLoop(args, 0, Bool(false), old(Snapshot()), sc, fuel)
      decreases fuel, 2, 0
    {
      var value := Bool(false);
      var i := 0;
      while i < |args|
        invariant i <= |args| && InScope(Snapshot(), sc) && ValueOk(value, |frames|)
        invariant DoLoop(args, i, value, Snapshot(), sc, fuel) == DoLoop(args, 0, Bool(false), old(Snapshot()), sc, fuel)
      {
        var v := Evaluate(args[i], sc, fuel);
        if v.Err? {
          return v;
        }
        value := v.value;
        i := i + 1;
      }
      r := Ok(value);
    }

    method Define(args: seq<Ast.Expr>, sc: nat, fuel: nat) returns (r: Result<Value>)
      requires InScope(Snapshot(), sc)
      modifies this
      ensures Outcome(r, Snapshot()) == DefineForm(args, old(Snapshot()), sc, fuel)
      decreases fuel, 2, 0
    {
      if |args| != 2 {
        return Err(SyntaxError("Wrong number of args to define"));
      } else if !args[0].Word? {
        return Err(SyntaxError("Invalid args to define"));
      }
      r := Evaluate(args[1], sc, fuel);
      if r.Err? {
        return;
      }
      frames := frames[sc := Frame(frames[sc].vars[args[0].name := r.value], frames[sc].parent)];
    }

    method While(args: seq<Ast.Expr>, sc: nat, fuel: nat) returns (r: Result<Value>)
      requires InScope(Snapshot(), sc)
      modifies this
      ensures Outcome(r, Snapshot()) == WhileForm(args, old(Snapshot()), sc, fuel)
      decreases fuel, 2, 0
    {
      if |args| != 2 {
        return Err(SyntaxError("Wrong number of args to while"));
      }
      var f: nat := fuel;
      while true
        invariant f <= fuel && InScope(Snapshot(), sc)
        invariant WhileLoop(args[0], args[1], Snapshot(), sc, f) == WhileLoop(args[0], args[1], old(Snapshot()), sc, fuel)
        decreases f
      {
        var c := Evaluate(args[0], sc, f);
        if c.Err? {
          return c;
        }
        if c.value == Bool(false) {
          return Ok(Bool(false));
        }
        var b := Evaluate(args[1], sc, f);
        if b.Err? {
          return b;
        }
        f := f - 1;
      }
    }

    /** `fun`: the parameter names, collected one by one, and a closure over
        the current scope. Nothing in the interpreter changes. */
    method Fun(args: seq<Ast.Expr>, sc: nat) returns (r: Result<Value>)
      requires InScope(Snapshot(), sc)
      ensures r == FunForm(args, Snapshot(), sc).result
    {
      if |args| == 0 {
        return Err(SyntaxError("Functions need a body."));
      }
      var n := |args| - 1;
      var params: seq<string> := [];
      var i := 0;
      while i < n
        invariant i <= n && ParamNames(args[..i]) == Some(params)
      {
        if !args[i].Word? {
          assert args[..n][i] == args[i];
          return Err(TypeError("Parameter names must be words"));
        }
        assert args[..i + 1][..i] == args[..i];
        params := params + [args[i].name];
        i := i + 1;
      }
      r := Ok(Closure(params, args[n], sc));
    }

    /** `set`: walk from the current scope towards the root and overwrite the
        first binding of the name found in a scope that has a parent. */
    method Set(args: seq<Ast.Expr>, sc: nat, fuel: nat) returns (r: Result<Value>)
      requires InScope(Snapshot(), sc)
      modifies this
      ensures Outcome(r, Snapshot()) == SetForm(args, old(Snapshot()), sc, fuel)
      decreases fuel, 2, 0
    {
      if |args| != 2 {
        return Err(SyntaxError("Wrong number of args to set"));
      } else if !args[0].Word? {
        return Err(SyntaxError("Invalid args to set"));
      }
      var name := args[0].name;
      var outer := frames[sc].parent;
      var inner := sc;
      r := Evaluate(args[1], sc, fuel);
      if r.Err? {
        return;
      }
      while outer.Some?
        invariant inner < |frames| && outer == frames[inner].parent
        invariant SetTarget(frames, inner, name) == SetTarget(frames, sc, name)
        decreases inner
      {
        if name in frames[inner].vars {
          frames := frames[inner := Frame(frames[inner].vars[name := r.value], frames[inner].parent)];
          return;
        }
        assert ParentOk(frames, inner);
        inner := outer.value;
        outer := frames[inner].parent;
      }
      r := Err(ReferenceError(name + " is not defined."));
    }
  }
}
