/** Fuel is only a bound on the work an evaluation may do, never part of its
    meaning: once an evaluation finishes with some fuel, giving it more fuel
    changes neither its result nor the store it leaves. So OutOfFuel stands
    for "did not finish within the bound" and every other outcome is the
    outcome of the program. */
module Fuel {
  import Ast
  import opened Runtime
  import opened Builtins
  import opened Semantics
  import Grammar

  /** The evaluation finished: its result is not the lack of fuel. */
  predicate Done<T>(o: Outcome<T>) {
    o.result != Err(OutOfFuel)
  }

  lemma {:induction false} EvalMore(e: Ast.Expr, st: Store, sc: nat, f: nat, g: nat)
    requires InScope(st, sc) && f <= g && Done(Eval(e, st, sc, f))
    ensures Eval(e, st, sc, g) == Eval(e, st, sc, f)
    decreases f, 0, 0
  {
    match e
    case Value(_) =>
    case Word(_) =>
    case Apply(op, args) =>
      if op.Word? && op.name in SpecialForms {
        EvalFormMore(op.name, args, st, sc, f - 1, g - 1);
      } else {
        ApplicationMore(op, args, st, sc, f - 1, g - 1);
      }
  }

  lemma {:induction false} ApplicationMore(op: Ast.Expr, args: seq<Ast.Expr>, st: Store, sc: nat, f: nat, g: nat)
    requires InScope(st, sc) && f <= g && Done(Application(op, args, st, sc, f))
    ensures Application(op, args, st, sc, g) == Application(op, args, st, sc, f)
    decreases f, 2, 0
  {
    var fo := Eval(op, st, sc, f);
    EvalMore(op, st, sc, f, g);
    if fo.result.Ok? && IsFunction(fo.result.value) {
      var a := EvalArgs(args, 0, [], fo.store, sc, f);
      EvalArgsMore(args, 0, [], fo.store, sc, f, g);
      if a.result.Ok? {
        ValueOkGrows(fo.result.value, |fo.store.frames|, |a.store.frames|);
        CallMore(fo.result.value, a.result.value, a.store, f, g);
      }
    }
  }

  lemma {:induction false} EvalArgsMore(args: seq<Ast.Expr>, i: nat, acc: seq<Value>, st: Store, sc: nat, f: nat, g: nat)
    requires InScope(st, sc) && i <= |args| && ValuesOk(acc, |st.frames|)
    requires f <= g && Done(EvalArgs(args, i, acc, st, sc, f))
    ensures EvalArgs(args, i, acc, st, sc, g) == EvalArgs(args, i, acc, st, sc, f)
    decreases f, 1, |args| - i
  {
    if i < |args| {
      var o := Eval(args[i], st, sc, f);
      EvalMore(args[i], st, sc, f, g);
      if o.result.Ok? {
        ValuesOkGrows(acc, |st.frames|, |o.store.frames|);
        assert ValuesOk(acc + [o.result.value], |o.store.frames|);
        EvalArgsMore(args, i + 1, acc + [o.result.value], o.store, sc, f, g);
      }
    }
  }

  lemma {:induction false} CallMore(fv: Value, vals: seq<Value>, st: Store, f: nat, g: nat)
    requires StoreOk(st) && ValueOk(fv, |st.frames|) && ValuesOk(vals, |st.frames|)
    requires f <= g && Done(Call(fv, vals, st, f))
    ensures Call(fv, vals, st, g) == Call(fv, vals, st, f)
    decreases f, 1, 0
  {
    if fv.Closure? && |vals| == |fv.params| {
      BindParamsOk(fv.params, vals, |st.frames|);
      PushFrameOk(st, BindParams(fv.params, vals), fv.scope);
      EvalMore(fv.body, PushFrame(st, BindParams(fv.params, vals), fv.scope), |st.frames|, f, g);
    }
  }

  lemma {:induction false} EvalFormMore(name: string, args: seq<Ast.Expr>, st: Store, sc: nat, f: nat, g: nat)
    requires name in SpecialForms && InScope(st, sc) && f <= g && Done(EvalForm(name, args, st, sc, f))
    ensures EvalForm(name, args, st, sc, g) == EvalForm(name, args, st, sc, f)
    decreases f, 3, 0
  {
    if name == "if" {
      IfFormMore(args, st, sc, f, g);
    } else if name == "do" {
      DoLoopMore(args, 0, Bool(false), st, sc, f, g);
    } else if name == "define" {
      DefineFormMore(args, st, sc, f, g);
    } else if name == "while" {
      if |args| == 2 {
        assert WhileForm(args, st, sc, f) == WhileLoop(args[0], args[1], st, sc, f);
        WhileLoopMore(args[0], args[1], st, sc, f, g);
      }
    } else if name == "set" {
      SetFormMore(args, st, sc, f, g);
    }
  }

  lemma {:induction false} IfFormMore(args: seq<Ast.Expr>, st: Store, sc: nat, f: nat, g: nat)
    requires InScope(st, sc) && f <= g && Done(IfForm(args, st, sc, f))
    ensures IfForm(args, st, sc, g) == IfForm(args, st, sc, f)
    decreases f, 2, 0
  {
    if |args| == 3 {
      var c := Eval(args[0], st, sc, f);
      EvalMore(args[0], st, sc, f, g);
      if c.result.Ok? {
        if c.result.value != Bool(false) {
          EvalMore(args[1], c.store, sc, f, g);
        } else {
          EvalMore(args[2], c.store, sc, f, g);
        }
      }
    }
  }

  lemma {:induction false} DoLoopMore(args: seq<Ast.Expr>, i: nat, last: Value, st: Store, sc: nat, f: nat, g: nat)
    requires InScope(st, sc) && i <= |args| && ValueOk(last, |st.frames|)
    requires f <= g && Done(DoLoop(args, i, last, st, sc, f))
    ensures DoLoop(args, i, last, st, sc, g) == DoLoop(args, i, last, st, sc, f)
    decreases f, 1, |args| - i
  {
    if i < |args| {
      var o := Eval(args[i], st, sc, f);
      EvalMore(args[i], st, sc, f, g);
      if o.result.Ok? {
        DoLoopMore(args, i + 1, o.result.value, o.store, sc, f, g);
      }
    }
  }

  lemma {:induction false} DefineFormMore(args: seq<Ast.Expr>, st: Store, sc: nat, f: nat, g: nat)
    requires InScope(st, sc) && f <= g && Done(DefineForm(args, st, sc, f))
    ensures DefineForm(args, st, sc, g) == DefineForm(args, st, sc, f)
    decreases f, 2, 0
  {
    if |args| == 2 && args[0].Word? {
      EvalMore(args[1], st, sc, f, g);
    }
  }

  lemma {:induction false} WhileLoopMore(cond: Ast.Expr, body: Ast.Expr, st: Store, sc: nat, f: nat, g: nat)
    requires InScope(st, sc) && f <= g && Done(WhileLoop(cond, body, st, sc, f))
    ensures WhileLoop(cond, body, st, sc, g) == WhileLoop(cond, body, st, sc, f)
    decreases f, 1, 0
  {
    var c := Eval(cond, st, sc, f);
    EvalMore(cond, st, sc, f, g);
    if c.result.Ok? && c.result.value != Bool(false) {
      var b := Eval(body, c.store, sc, f);
      EvalMore(body, c.store, sc, f, g);
      if b.result.Ok? {
        WhileLoopMore(cond, body, b.store, sc, f - 1, g - 1);
      }
    }
  }

  lemma {:induction false} SetFormMore(args: seq<Ast.Expr>, st: Store, sc: nat, f: nat, g: nat)
    requires InScope(st, sc) && f <= g && Done(SetForm(args, st, sc, f))
    ensures SetForm(args, st, sc, g) == SetForm(args, st, sc, f)
    decreases f, 2, 0
  {
    if |args| == 2 && args[0].Word? {
      EvalMore(args[1], st, sc, f, g);
    }
  }

  /** A program that finishes with some fuel finishes the same way with any
      more fuel. */
  lemma RunMore(program: string, st: Store, f: nat, g: nat)
    requires StoreOk(st) && f <= g && Done(Run(program, st, f))
    ensures Run(program, st, g) == Run(program, st, f)
  {
    if Grammar.Parse(program).Program? {
      PushFrameOk(st, map[], 0);
      EvalMore(Grammar.Parse(program).tree, PushFrame(st, map[], 0), |st.frames|, f, g);
    }
  }
}
