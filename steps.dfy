/** Single evaluation steps, each a consequence of one clause of Semantics,
    for following a concrete program through the evaluator. */
module Steps {
  import opened Ast
  import R = Runtime
  import Builtins
  import opened Semantics
  import Grammar

  function W(x: string): Expr { Word(x) }
  function N(n: nat): Expr { Value(Num(n)) }
  function Ap(f: string, args: seq<Expr>): Expr { Apply(Word(f), args) }

  /** A root scope binding the builtins the sample programs use. */
  predicate Root(f: R.Frame) {
    && f.parent.None? && R.FrameOk(f, 0)
    && "+" in f.vars && f.vars["+"] == R.Native(R.Add)
    && "-" in f.vars && f.vars["-"] == R.Native(R.Sub)
    && "*" in f.vars && f.vars["*"] == R.Native(R.Mul)
    && "==" in f.vars && f.vars["=="] == R.Native(R.Eq)
    && "<" in f.vars && f.vars["<"] == R.Native(R.Lt)
    && "print" in f.vars && f.vars["print"] == R.Native(R.Print)
  }

  /** The root scope of the interpreter is such a scope. */
  lemma TopFrameIsRoot()
    ensures Root(Builtins.TopFrame())
  {}

  /** The store `run` evaluates a program in: the root and a fresh scope. */
  function Start(root: R.Frame): (st: R.Store)
    requires Root(root)
    ensures R.InScope(st, 1)
  {
    R.FrameOkGrows(root, 0, 2);
    R.Store([root, R.Frame(map[], R.Some(0))], [])
  }

  /** `run` evaluates a parsed program in exactly such a store, below the
      interpreter's own root. */
  lemma RunStart(program: string, tree: Expr, fuel: nat)
    requires Grammar.Parse(program) == Grammar.Program(tree)
    ensures Root(Builtins.TopFrame())
    ensures Run(program, InitialStore(), fuel) == Eval(tree, Start(Builtins.TopFrame()), 1, fuel)
  {
    TopFrameIsRoot();
    var st := InitialStore();
    assert st.frames + [R.Frame(map[], R.Some(0))] == Start(Builtins.TopFrame()).frames;
    assert R.PushFrame(st, map[], 0) == Start(Builtins.TopFrame());
  }

  lemma WordRule(x: string, st: R.Store, sc: nat, fuel: nat, v: R.Value)
    requires R.InScope(st, sc) && fuel > 0 && R.Lookup(st.frames, sc, x) == R.Some(v)
    ensures Eval(Word(x), st, sc, fuel) == Outcome(R.Ok(v), st)
  {}

  /** A word bound in no scope of the chain is a ReferenceError. */
  lemma UnboundWord(x: string, st: R.Store, sc: nat, fuel: nat)
    requires R.InScope(st, sc) && fuel > 0 && R.Lookup(st.frames, sc, x) == R.None
    ensures Eval(Word(x), st, sc, fuel) == Outcome(R.Err(R.ReferenceError("Undefined binding: " + x)), st)
  {}

  lemma NumRule(n: nat, st: R.Store, sc: nat, fuel: nat)
    requires R.InScope(st, sc) && fuel > 0
    ensures Eval(Value(Num(n)), st, sc, fuel) == Outcome(R.Ok(R.Num(n)), st)
  {}

  lemma ArgsNilRule(args: seq<Expr>, acc: seq<R.Value>, st: R.Store, sc: nat, fuel: nat)
    requires R.InScope(st, sc) && R.ValuesOk(acc, |st.frames|)
    ensures EvalArgs(args, |args|, acc, st, sc, fuel) == Outcome(R.Ok(acc), st)
  {}

  lemma ArgsConsRule(args: seq<Expr>, i: nat, acc: seq<R.Value>, st: R.Store, sc: nat, fuel: nat,
                     v: R.Value, st1: R.Store, r: Outcome<seq<R.Value>>)
    requires R.InScope(st, sc) && i < |args| && R.ValuesOk(acc, |st.frames|)
    requires Eval(args[i], st, sc, fuel) == Outcome(R.Ok(v), st1) && R.ValuesOk(acc + [v], |st1.frames|)
    requires EvalArgs(args, i + 1, acc + [v], st1, sc, fuel) == r
    ensures EvalArgs(args, i, acc, st, sc, fuel) == r
  {}

  lemma ApplyRule(op: Expr, args: seq<Expr>, st: R.Store, sc: nat, fuel: nat,
                  fv: R.Value, st1: R.Store, vals: seq<R.Value>, st2: R.Store, r: Outcome<R.Value>)
    requires R.InScope(st, sc) && !(op.Word? && op.name in SpecialForms)
    requires Eval(op, st, sc, fuel) == Outcome(R.Ok(fv), st1) && R.IsFunction(fv)
    requires EvalArgs(args, 0, [], st1, sc, fuel) == Outcome(R.Ok(vals), st2)
    requires R.StoreOk(st2) && R.ValueOk(fv, |st2.frames|) && R.ValuesOk(vals, |st2.frames|)
    requires Call(fv, vals, st2, fuel) == r
    ensures Eval(Apply(op, args), st, sc, fuel + 1) == r
  {}

  /** A builtin other than `print` applied to two arguments. */
  lemma BinaryRule(name: string, a: Expr, b: Expr, st: R.Store, sc: nat, fuel: nat, op: R.Builtin,
                   va: R.Value, st1: R.Store, vb: R.Value, st2: R.Store)
    requires R.InScope(st, sc) && name !in SpecialForms && op != R.Print && fuel > 0
    requires R.Lookup(st.frames, sc, name) == R.Some(R.Native(op))
    requires Eval(a, st, sc, fuel) == Outcome(R.Ok(va), st1)
    requires Eval(b, st1, sc, fuel) == Outcome(R.Ok(vb), st2)
    ensures Eval(Ap(name, [a, b]), st, sc, fuel + 1) == Outcome(Builtins.ApplyBuiltin(op, [va, vb]), st2)
  {
    var args := [a, b];
    WordRule(name, st, sc, fuel, R.Native(op));
    R.ValueOkGrows(va, |st1.frames|, |st2.frames|);
    ArgsNilRule(args, [va, vb], st2, sc, fuel);
    assert [va] + [vb] == [va, vb];
    ArgsConsRule(args, 1, [va], st1, sc, fuel, vb, st2, Outcome(R.Ok([va, vb]), st2));
    assert [] + [va] == [va];
    ArgsConsRule(args, 0, [], st, sc, fuel, va, st1, Outcome(R.Ok([va, vb]), st2));
    ApplyRule(W(name), args, st, sc, fuel, R.Native(op), st, [va, vb], st2,
              Outcome(Builtins.ApplyBuiltin(op, [va, vb]), st2));
  }

  /** A builtin other than `print` applied to one argument. */
  lemma UnaryRule(name: string, a: Expr, st: R.Store, sc: nat, fuel: nat, op: R.Builtin,
                  va: R.Value, st1: R.Store)
    requires R.InScope(st, sc) && name !in SpecialForms && op != R.Print && fuel > 0
    requires R.Lookup(st.frames, sc, name) == R.Some(R.Native(op))
    requires Eval(a, st, sc, fuel) == Outcome(R.Ok(va), st1)
    ensures Eval(Ap(name, [a]), st, sc, fuel + 1) == Outcome(Builtins.ApplyBuiltin(op, [va]), st1)
  {
    WordRule(name, st, sc, fuel, R.Native(op));
    ArgsNilRule([a], [va], st1, sc, fuel);
    assert [] + [va] == [va];
    ArgsConsRule([a], 0, [], st, sc, fuel, va, st1, Outcome(R.Ok([va]), st1));
    ApplyRule(W(name), [a], st, sc, fuel, R.Native(op), st, [va], st1,
              Outcome(Builtins.ApplyBuiltin(op, [va]), st1));
  }

  /** The integer builtins on two numbers. */
  lemma BuiltinValues(op: R.Builtin, a: int, b: int)
    ensures op == R.Add ==> Builtins.ApplyBuiltin(op, [R.Num(a), R.Num(b)]) == R.Ok(R.Num(a + b))
    ensures op == R.Sub ==> Builtins.ApplyBuiltin(op, [R.Num(a), R.Num(b)]) == R.Ok(R.Num(a - b))
    ensures op == R.Mul ==> Builtins.ApplyBuiltin(op, [R.Num(a), R.Num(b)]) == R.Ok(R.Num(a * b))
    ensures op == R.Lt ==> Builtins.ApplyBuiltin(op, [R.Num(a), R.Num(b)]) == R.Ok(R.Bool(a < b))
    ensures op == R.Eq ==> Builtins.ApplyBuiltin(op, [R.Num(a), R.Num(b)]) == R.Ok(R.Bool(a == b))
  {}

  /** `+` on two numbers, with the sum named by the caller. */
  lemma AddValues(a: int, b: int, v: int)
    requires v == a + b
    ensures Builtins.ApplyBuiltin(R.Add, [R.Num(a), R.Num(b)]) == R.Ok(R.Num(v))
  {}

  /** `<` on two numbers. */
  lemma LtValues(a: int, b: int)
    ensures Builtins.ApplyBuiltin(R.Lt, [R.Num(a), R.Num(b)]) == R.Ok(R.Bool(a < b))
  {}

  /** `element` on an array and an index inside it. */
  lemma ElementValues(xs: seq<R.Value>, i: int)
    requires 0 <= i < |xs|
    ensures Builtins.ApplyBuiltin(R.Element, [R.Arr(xs), R.Num(i)]) == R.Ok(xs[i])
  {}

  /** The value of a word or a literal, which evaluates in one step and
      leaves the store as it is. */
  function AtomValue(e: Expr, st: R.Store, sc: nat): R.Option<R.Value>
    requires R.InScope(st, sc)
  {
    match e
    case Word(x) => R.Lookup(st.frames, sc, x)
    case Value(a) => R.Some(Literal(a))
    case Apply(_, _) => R.None
  }

  lemma AtomRule(e: Expr, st: R.Store, sc: nat, fuel: nat, v: R.Value)
    requires R.InScope(st, sc) && fuel > 0 && AtomValue(e, st, sc) == R.Some(v)
    ensures Eval(e, st, sc, fuel) == Outcome(R.Ok(v), st)
  {}

  /** A builtin other than `print` applied to two words or literals. */
  lemma BinaryAtomsRule(name: string, a: Expr, b: Expr, st: R.Store, sc: nat, fuel: nat, op: R.Builtin,
                        va: R.Value, vb: R.Value)
    requires R.InScope(st, sc) && name !in SpecialForms && op != R.Print && fuel > 1
    requires R.Lookup(st.frames, sc, name) == R.Some(R.Native(op))
    requires AtomValue(a, st, sc) == R.Some(va) && AtomValue(b, st, sc) == R.Some(vb)
    ensures Eval(Ap(name, [a, b]), st, sc, fuel) == Outcome(Builtins.ApplyBuiltin(op, [va, vb]), st)
  {
    AtomRule(a, st, sc, fuel - 1, va);
    AtomRule(b, st, sc, fuel - 1, vb);
    BinaryRule(name, a, b, st, sc, fuel - 1, op, va, st, vb, st);
  }

  lemma CallClosureRule(ps: seq<string>, body: Expr, s: nat, vals: seq<R.Value>, st: R.Store, fuel: nat,
                        inner: R.Store, r: Outcome<R.Value>)
    requires R.StoreOk(st) && R.ValueOk(R.Closure(ps, body, s), |st.frames|) && R.ValuesOk(vals, |st.frames|)
    requires |vals| == |ps| && inner == R.PushFrame(st, R.BindParams(ps, vals), s)
    requires R.InScope(inner, |st.frames|) && Eval(body, inner, |st.frames|, fuel) == r
    ensures Call(R.Closure(ps, body, s), vals, st, fuel) == r
  {}

  /** A function named `name` applied to two arguments whose evaluation
      leaves the store alone. */
  lemma ApplyTwoRule(name: string, a: Expr, b: Expr, st: R.Store, sc: nat, fuel: nat,
                     fv: R.Value, va: R.Value, vb: R.Value, r: Outcome<R.Value>)
    requires R.InScope(st, sc) && name !in SpecialForms && fuel > 0
    requires R.Lookup(st.frames, sc, name) == R.Some(fv) && R.IsFunction(fv) && R.ValueOk(fv, |st.frames|)
    requires Eval(a, st, sc, fuel) == Outcome(R.Ok(va), st) && Eval(b, st, sc, fuel) == Outcome(R.Ok(vb), st)
    requires Call(fv, [va, vb], st, fuel) == r
    ensures Eval(Ap(name, [a, b]), st, sc, fuel + 1) == r
  {
    var args := [a, b];
    WordRule(name, st, sc, fuel, fv);
    ArgsNilRule(args, [va, vb], st, sc, fuel);
    assert [va] + [vb] == [va, vb];
    ArgsConsRule(args, 1, [va], st, sc, fuel, vb, st, Outcome(R.Ok([va, vb]), st));
    assert [] + [va] == [va];
    ArgsConsRule(args, 0, [], st, sc, fuel, va, st, Outcome(R.Ok([va, vb]), st));
    ApplyRule(W(name), args, st, sc, fuel, fv, st, [va, vb], st, r);
  }

  /** A one-parameter closure applied to one argument: the body runs in a
      new frame binding the parameter to the argument's value. */
  lemma CallOneRule(op: Expr, arg: Expr, x: string, body: Expr, s: nat, st: R.Store, sc: nat, fuel: nat,
                    st1: R.Store, v: R.Value, st2: R.Store, r: Outcome<R.Value>)
    requires R.InScope(st, sc) && !(op.Word? && op.name in SpecialForms)
    requires Eval(op, st, sc, fuel) == Outcome(R.Ok(R.Closure([x], body, s)), st1)
    requires Eval(arg, st1, sc, fuel) == Outcome(R.Ok(v), st2)
    requires R.InScope(R.PushFrame(st2, map[x := v], s), |st2.frames|)
    requires Eval(body, R.PushFrame(st2, map[x := v], s), |st2.frames|, fuel) == r
    ensures Eval(Apply(op, [arg]), st, sc, fuel + 1) == r
  {
    R.ValueOkGrows(R.Closure([x], body, s), |st1.frames|, |st2.frames|);
    ArgsNilRule([arg], [v], st2, sc, fuel);
    assert [] + [v] == [v];
    ArgsConsRule([arg], 0, [], st1, sc, fuel, v, st2, Outcome(R.Ok([v]), st2));
    assert [x][..0] == [] && [v][..0] == [];
    assert R.BindParams([x], [v]) == map[x := v];
    CallClosureRule([x], body, s, [v], st2, fuel, R.PushFrame(st2, map[x := v], s), r);
    ApplyRule(op, [arg], st, sc, fuel, R.Closure([x], body, s), st1, [v], st2, r);
  }

  lemma CallPrintRule(v: R.Value, st: R.Store, fuel: nat)
    requires R.StoreOk(st) && R.ValueOk(v, |st.frames|)
    ensures Call(R.Native(R.Print), [v], st, fuel) == Outcome(R.Ok(v), st.(output := st.output + [v]))
  {}

  /** `print(e)` yields the value of e and appends it to the output. */
  lemma PrintRule(e: Expr, st: R.Store, sc: nat, fuel: nat, v: R.Value, st1: R.Store)
    requires R.InScope(st, sc) && fuel > 0 && R.Lookup(st.frames, sc, "print") == R.Some(R.Native(R.Print))
    requires Eval(e, st, sc, fuel) == Outcome(R.Ok(v), st1)
    ensures Eval(Ap("print", [e]), st, sc, fuel + 1) == Outcome(R.Ok(v), st1.(output := st1.output + [v]))
  {
    WordRule("print", st, sc, fuel, R.Native(R.Print));
    ArgsNilRule([e], [v], st1, sc, fuel);
    assert [] + [v] == [v];
    ArgsConsRule([e], 0, [], st, sc, fuel, v, st1, Outcome(R.Ok([v]), st1));
    CallPrintRule(v, st1, fuel);
    ApplyRule(W("print"), [e], st, sc, fuel, R.Native(R.Print), st, [v], st1,
              Outcome(R.Ok(v), st1.(output := st1.output + [v])));
  }

  lemma DefineRule(x: string, e: Expr, st: R.Store, sc: nat, fuel: nat, v: R.Value, st1: R.Store)
    requires R.InScope(st, sc) && Eval(e, st, sc, fuel) == Outcome(R.Ok(v), st1)
    ensures Eval(Ap("define", [Word(x), e]), st, sc, fuel + 1) ==
              Outcome(R.Ok(v), st1.(frames := R.Bind(st1.frames, sc, x, v)))
  {
    assert EvalForm("define", [Word(x), e], st, sc, fuel) == DefineForm([Word(x), e], st, sc, fuel);
  }

  lemma SetRule(x: string, e: Expr, st: R.Store, sc: nat, fuel: nat, v: R.Value, st1: R.Store, t: nat)
    requires R.InScope(st, sc) && Eval(e, st, sc, fuel) == Outcome(R.Ok(v), st1)
    requires R.SetTarget(st1.frames, sc, x) == R.Some(t)
    ensures Eval(Ap("set", [Word(x), e]), st, sc, fuel + 1) ==
              Outcome(R.Ok(v), st1.(frames := R.Bind(st1.frames, t, x, v)))
  {
    assert EvalForm("set", [Word(x), e], st, sc, fuel) == SetForm([Word(x), e], st, sc, fuel);
  }

  lemma FunRule(params: seq<Expr>, body: Expr, names: seq<string>, st: R.Store, sc: nat, fuel: nat)
    requires R.InScope(st, sc) && ParamNames(params) == R.Some(names)
    ensures Eval(Ap("fun", params + [body]), st, sc, fuel + 1) == Outcome(R.Ok(R.Closure(names, body, sc)), st)
  {
    assert (params + [body])[..|params|] == params;
    assert EvalForm("fun", params + [body], st, sc, fuel) == FunForm(params + [body], st, sc);
  }

  lemma IfRule(c: Expr, thn: Expr, els: Expr, st: R.Store, sc: nat, fuel: nat, v: R.Value, st1: R.Store)
    requires R.InScope(st, sc) && Eval(c, st, sc, fuel) == Outcome(R.Ok(v), st1)
    ensures Eval(Ap("if", [c, thn, els]), st, sc, fuel + 1) ==
              if v != R.Bool(false) then Eval(thn, st1, sc, fuel) else Eval(els, st1, sc, fuel)
  {
    assert EvalForm("if", [c, thn, els], st, sc, fuel) == IfForm([c, thn, els], st, sc, fuel);
  }

  /** `if` whose condition yields false evaluates its else branch. */
  lemma IfFalseRule(c: Expr, thn: Expr, els: Expr, st: R.Store, sc: nat, fuel: nat, st1: R.Store)
    requires R.InScope(st, sc) && Eval(c, st, sc, fuel) == Outcome(R.Ok(R.Bool(false)), st1)
    ensures Eval(Ap("if", [c, thn, els]), st, sc, fuel + 1) == Eval(els, st1, sc, fuel)
  {
    assert EvalForm("if", [c, thn, els], st, sc, fuel) == IfForm([c, thn, els], st, sc, fuel);
  }

  lemma DoRule(args: seq<Expr>, st: R.Store, sc: nat, fuel: nat, r: Outcome<R.Value>)
    requires R.InScope(st, sc) && DoLoop(args, 0, R.Bool(false), st, sc, fuel) == r
    ensures Eval(Ap("do", args), st, sc, fuel + 1) == r
  {
    assert EvalForm("do", args, st, sc, fuel) == DoLoop(args, 0, R.Bool(false), st, sc, fuel);
  }

  lemma DoNilRule(args: seq<Expr>, last: R.Value, st: R.Store, sc: nat, fuel: nat)
    requires R.InScope(st, sc) && R.ValueOk(last, |st.frames|)
    ensures DoLoop(args, |args|, last, st, sc, fuel) == Outcome(R.Ok(last), st)
  {}

  lemma DoConsRule(args: seq<Expr>, i: nat, last: R.Value, st: R.Store, sc: nat, fuel: nat,
                   v: R.Value, st1: R.Store, r: Outcome<R.Value>)
    requires R.InScope(st, sc) && i < |args| && R.ValueOk(last, |st.frames|)
    requires Eval(args[i], st, sc, fuel) == Outcome(R.Ok(v), st1)
    requires DoLoop(args, i + 1, v, st1, sc, fuel) == r
    ensures DoLoop(args, i, last, st, sc, fuel) == r
  {}

  lemma WhileRule(c: Expr, body: Expr, st: R.Store, sc: nat, fuel: nat)
    requires R.InScope(st, sc)
    ensures Eval(Ap("while", [c, body]), st, sc, fuel + 1) == WhileLoop(c, body, st, sc, fuel)
  {
    assert EvalForm("while", [c, body], st, sc, fuel) == WhileForm([c, body], st, sc, fuel);
  }

  lemma WhileStopRule(c: Expr, body: Expr, st: R.Store, sc: nat, fuel: nat, st1: R.Store)
    requires R.InScope(st, sc) && Eval(c, st, sc, fuel) == Outcome(R.Ok(R.Bool(false)), st1)
    ensures WhileLoop(c, body, st, sc, fuel) == Outcome(R.Ok(R.Bool(false)), st1)
  {}

  lemma WhileStepRule(c: Expr, body: Expr, st: R.Store, sc: nat, fuel: nat,
                      v: R.Value, st1: R.Store, w: R.Value, st2: R.Store)
    requires R.InScope(st, sc) && Eval(c, st, sc, fuel) == Outcome(R.Ok(v), st1) && v != R.Bool(false)
    requires Eval(body, st1, sc, fuel) == Outcome(R.Ok(w), st2) && fuel > 0
    ensures WhileLoop(c, body, st, sc, fuel) == WhileLoop(c, body, st2, sc, fuel - 1)
  {}

  /** A loop whose passes lead from store S(k) to S(k + 1), ..., S(n), each
      pass taking one unit of fuel, and which from S(n) ends as r. */
  lemma {:induction false} WhileChain(c: Expr, body: Expr, sc: nat, S: nat -> R.Store,
                                      k: nat, n: nat, m: nat, fuel: nat, r: Outcome<R.Value>)
    requires k <= n && fuel >= m + (n - k)
    requires forall i: nat :: k <= i <= n ==> R.InScope(S(i), sc)
    requires forall i: nat, f: nat :: k <= i < n && f >= m + (n - i) ==>
               WhileLoop(c, body, S(i), sc, f) == WhileLoop(c, body, S(i + 1), sc, f - 1)
    requires forall f: nat :: f >= m ==> WhileLoop(c, body, S(n), sc, f) == r
    ensures WhileLoop(c, body, S(k), sc, fuel) == r
    decreases n - k
  {
    if k < n {
      WhileChain(c, body, sc, S, k + 1, n, m, fuel - 1, r);
    }
  }
}
