/** The example programs that accompany the evaluator, followed through the
    model: each is evaluated, as `run` evaluates it, in a fresh scope below a
    root that binds the builtins. */
module Programs {
  import opened Ast
  import R = Runtime
  import Builtins
  import opened Semantics
  import opened Steps

  // ---------------------------------------------------------------------
  // The first sample program, summing 1 to 10 with a loop:
  // `do(define(total, 0), define(count, 1),
  //     while(<(count, 11), do(define(total, +(total, count)), define(count, +(count, 1)))),
  //     print(total))`

  function Cond(): Expr { Ap("<", [W("count"), N(11)]) }
  function AddTotal(): Expr { Ap("define", [W("total"), Ap("+", [W("total"), W("count")])]) }
  function AddCount(): Expr { Ap("define", [W("count"), Ap("+", [W("count"), N(1)])]) }
  function LoopBody(): Expr { Ap("do", [AddTotal(), AddCount()]) }
  function SumProgram(): seq<Expr> {
    [Ap("define", [W("total"), N(0)]), Ap("define", [W("count"), N(1)]),
     Ap("while", [Cond(), LoopBody()]), Ap("print", [W("total")])]
  }

  /** c + (c + 1) + ... + 10. */
  function SumFrom(c: nat): nat
    decreases 11 - c
  {
    if c >= 11 then 0 else c + SumFrom(c + 1)
  }

  /** The program's scope while the loop runs, with total t and count c. */
  function CountStore(root: R.Frame, t: int, c: int): R.Store {
    R.Store([root, R.Frame(map["total" := R.Num(t), "count" := R.Num(c)], R.Some(0))], [])
  }

  /** Scope 1 of st binds total to t and count to c and sees `<` and `+`. */
  predicate CountFrameOf(st: R.Store, t: int, c: int) {
    && R.InScope(st, 1)
    && R.Lookup(st.frames, 1, "total") == R.Some(R.Num(t))
    && R.Lookup(st.frames, 1, "count") == R.Some(R.Num(c))
    && R.Lookup(st.frames, 1, "<") == R.Some(R.Native(R.Lt))
    && R.Lookup(st.frames, 1, "+") == R.Some(R.Native(R.Add))
  }

  lemma CountStoreFrame(root: R.Frame, t: int, c: int)
    requires Root(root)
    ensures CountFrameOf(CountStore(root, t, c), t, c)
  {
    R.FrameOkGrows(root, 0, 2);
    var st := CountStore(root, t, c);
    assert "<" !in st.frames[1].vars && "+" !in st.frames[1].vars;
  }

  lemma CountCondition(st: R.Store, t: int, c: int, fuel: nat)
    requires CountFrameOf(st, t, c) && fuel >= 2
    ensures Eval(Cond(), st, 1, fuel) == Outcome(R.Ok(R.Bool(c < 11)), st)
  {
    BinaryAtomsRule("<", W("count"), N(11), st, 1, fuel, R.Lt, R.Num(c), R.Num(11));
    BuiltinValues(R.Lt, c, 11);
  }

  lemma TotalPlusCount(st: R.Store, t: int, c: int, fuel: nat)
    requires CountFrameOf(st, t, c) && fuel >= 2
    ensures Eval(Ap("+", [W("total"), W("count")]), st, 1, fuel) == Outcome(R.Ok(R.Num(t + c)), st)
  {
    BinaryAtomsRule("+", W("total"), W("count"), st, 1, fuel, R.Add, R.Num(t), R.Num(c));
    BuiltinValues(R.Add, t, c);
  }

  lemma CountPlusOne(st: R.Store, t: int, c: int, fuel: nat)
    requires CountFrameOf(st, t, c) && fuel >= 2
    ensures Eval(Ap("+", [W("count"), N(1)]), st, 1, fuel) == Outcome(R.Ok(R.Num(c + 1)), st)
  {
    BinaryAtomsRule("+", W("count"), N(1), st, 1, fuel, R.Add, R.Num(c), R.Num(1));
    BuiltinValues(R.Add, c, 1);
  }

  /** `define` of total or count in the program's scope replaces that one binding. */
  lemma CountStoreRebind(root: R.Frame, t: int, c: int, v: int)
    ensures R.Bind(CountStore(root, t, c).frames, 1, "total", R.Num(v)) == CountStore(root, v, c).frames
    ensures R.Bind(CountStore(root, t, c).frames, 1, "count", R.Num(v)) == CountStore(root, t, v).frames
  {
    var m := map["total" := R.Num(t), "count" := R.Num(c)];
    assert m["total" := R.Num(v)] == map["total" := R.Num(v), "count" := R.Num(c)];
    assert m["count" := R.Num(v)] == map["total" := R.Num(t), "count" := R.Num(v)];
  }

  lemma AddTotalStep(root: R.Frame, t: int, c: int, fuel: nat)
    requires Root(root) && fuel >= 3
    ensures R.InScope(CountStore(root, t, c), 1)
    ensures Eval(AddTotal(), CountStore(root, t, c), 1, fuel) == Outcome(R.Ok(R.Num(t + c)), CountStore(root, t + c, c))
  {
    CountStoreFrame(root, t, c);
    TotalPlusCount(CountStore(root, t, c), t, c, fuel - 1);
    DefineRule("total", Ap("+", [W("total"), W("count")]), CountStore(root, t, c), 1, fuel - 1, R.Num(t + c), CountStore(root, t, c));
    CountStoreRebind(root, t, c, t + c);
  }

  lemma AddCountStep(root: R.Frame, t: int, c: int, fuel: nat)
    requires Root(root) && fuel >= 3
    ensures R.InScope(CountStore(root, t, c), 1)
    ensures Eval(AddCount(), CountStore(root, t, c), 1, fuel) == Outcome(R.Ok(R.Num(c + 1)), CountStore(root, t, c + 1))
  {
    CountStoreFrame(root, t, c);
    CountPlusOne(CountStore(root, t, c), t, c, fuel - 1);
    DefineRule("count", Ap("+", [W("count"), N(1)]), CountStore(root, t, c), 1, fuel - 1, R.Num(c + 1), CountStore(root, t, c));
    CountStoreRebind(root, t, c, c + 1);
  }

  /** One pass of the loop body adds count to total and then increments count. */
  lemma LoopBodyStep(root: R.Frame, t: int, c: int, fuel: nat)
    requires Root(root) && fuel >= 4
    ensures R.InScope(CountStore(root, t, c), 1)
    ensures Eval(LoopBody(), CountStore(root, t, c), 1, fuel) == Outcome(R.Ok(R.Num(c + 1)), CountStore(root, t + c, c + 1))
  {
    CountStoreFrame(root, t + c, c + 1);
    AddTotalStep(root, t, c, fuel - 1);
    AddCountStep(root, t + c, c, fuel - 1);
    var args := [AddTotal(), AddCount()];
    var r := Outcome(R.Ok(R.Num(c + 1)), CountStore(root, t + c, c + 1));
    DoNilRule(args, R.Num(c + 1), CountStore(root, t + c, c + 1), 1, fuel - 1);
    DoConsRule(args, 1, R.Num(t + c), CountStore(root, t + c, c), 1, fuel - 1, R.Num(c + 1), CountStore(root, t + c, c + 1), r);
    DoConsRule(args, 0, R.Bool(false), CountStore(root, t, c), 1, fuel - 1, R.Num(t + c), CountStore(root, t + c, c), r);
    DoRule(args, CountStore(root, t, c), 1, fuel - 1, r);
  }

  /** A pass of the loop while count is below 11. */
  lemma LoopPass(root: R.Frame, t: int, c: nat, fuel: nat)
    requires Root(root) && c < 11 && fuel >= 4
    ensures R.InScope(CountStore(root, t, c), 1) && R.InScope(CountStore(root, t + c, c + 1), 1)
    ensures WhileLoop(Cond(), LoopBody(), CountStore(root, t, c), 1, fuel) ==
              WhileLoop(Cond(), LoopBody(), CountStore(root, t + c, c + 1), 1, fuel - 1)
  {
    CountStoreFrame(root, t, c);
    CountStoreFrame(root, t + c, c + 1);
    CountCondition(CountStore(root, t, c), t, c, fuel);
    LoopBodyStep(root, t, c, fuel);
    WhileStepRule(Cond(), LoopBody(), CountStore(root, t, c), 1, fuel, R.Bool(true), CountStore(root, t, c),
                  R.Num(c + 1), CountStore(root, t + c, c + 1));
  }

  /** The store at the start of pass i: total holds 1 + ... + (i - 1). */
  function Pass(root: R.Frame, i: nat): R.Store {
    CountStore(root, 55 - SumFrom(i), i)
  }

  /** A pass with count i below 11 leads to the pass with count i + 1. */
  lemma PassStep(root: R.Frame, i: nat, f: nat)
    requires Root(root) && 1 <= i < 11 && f >= 4
    ensures R.InScope(Pass(root, i), 1) && R.InScope(Pass(root, i + 1), 1)
    ensures WhileLoop(Cond(), LoopBody(), Pass(root, i), 1, f) == WhileLoop(Cond(), LoopBody(), Pass(root, i + 1), 1, f - 1)
  {
    var t := 55 - SumFrom(i);
    assert t + i == 55 - SumFrom(i + 1);
    LoopPass(root, t, i, f);
  }

  /** Every pass of the loop, named S(1) .. S(11), stays within scope 1. */
  lemma PassesInScope(root: R.Frame, S: nat -> R.Store)
    requires Root(root) && forall i: nat :: S(i) == Pass(root, i)
    ensures forall i: nat :: 1 <= i <= 11 ==> R.InScope(S(i), 1)
  {
    forall i: nat | 1 <= i <= 11 ensures R.InScope(S(i), 1) {
      CountStoreFrame(root, 55 - SumFrom(i), i);
    }
  }

  /** Each pass with count below 11 leads to the next one. */
  lemma PassesChain(root: R.Frame, S: nat -> R.Store)
    requires Root(root) && forall i: nat :: S(i) == Pass(root, i)
    requires forall i: nat :: 1 <= i <= 11 ==> R.InScope(S(i), 1)
    ensures forall i: nat, f: nat :: 1 <= i < 11 && f >= 4 + (11 - i) ==>
              WhileLoop(Cond(), LoopBody(), S(i), 1, f) == WhileLoop(Cond(), LoopBody(), S(i + 1), 1, f - 1)
  {
    forall i: nat, f: nat | 1 <= i < 11 && f >= 4 + (11 - i)
      ensures WhileLoop(Cond(), LoopBody(), S(i), 1, f) == WhileLoop(Cond(), LoopBody(), S(i + 1), 1, f - 1)
    {
      PassStep(root, i, f);
    }
  }

  /** The last pass: with count 11 the loop stops, total holding 55. */
  lemma PassesEnd(root: R.Frame, S: nat -> R.Store)
    requires Root(root) && forall i: nat :: S(i) == Pass(root, i)
    requires forall i: nat :: 1 <= i <= 11 ==> R.InScope(S(i), 1)
    ensures forall f: nat :: f >= 4 ==>
              WhileLoop(Cond(), LoopBody(), S(11), 1, f) == Outcome(R.Ok(R.Bool(false)), CountStore(root, 55, 11))
  {
    forall f: nat | f >= 4
      ensures WhileLoop(Cond(), LoopBody(), S(11), 1, f) == Outcome(R.Ok(R.Bool(false)), CountStore(root, 55, 11))
    {
      LoopStops(root, 55, f);
    }
  }

  /** From count 1 on, the loop adds 1, 2, ..., 10 to total, leaving 55 in
      it, and stops with count 11. */
  lemma CountingLoop(root: R.Frame, fuel: nat)
    requires Root(root) && fuel >= 14
    ensures R.InScope(CountStore(root, 0, 1), 1)
    ensures WhileLoop(Cond(), LoopBody(), CountStore(root, 0, 1), 1, fuel) == Outcome(R.Ok(R.Bool(false)), CountStore(root, 55, 11))
  {
    var S := (i: nat) => Pass(root, i);
    PassesInScope(root, S);
    PassesChain(root, S);
    PassesEnd(root, S);
    SumToTen();
    Steps.WhileChain(Cond(), LoopBody(), 1, S, 1, 11, 4, fuel, Outcome(R.Ok(R.Bool(false)), CountStore(root, 55, 11)));
  }

  /** With count 11 the loop stops at once. */
  lemma LoopStops(root: R.Frame, t: int, fuel: nat)
    requires Root(root) && fuel >= 2
    ensures R.InScope(CountStore(root, t, 11), 1)
    ensures WhileLoop(Cond(), LoopBody(), CountStore(root, t, 11), 1, fuel) == Outcome(R.Ok(R.Bool(false)), CountStore(root, t, 11))
  {
    CountStoreFrame(root, t, 11);
    CountCondition(CountStore(root, t, 11), t, 11, fuel);
    WhileStopRule(Cond(), LoopBody(), CountStore(root, t, 11), 1, fuel, CountStore(root, t, 11));
  }

  lemma SumToTen()
    ensures SumFrom(1) == 55
  {
    assert SumFrom(8) == 27;
    assert SumFrom(4) == 49;
  }

  /** The scope after `define(total, 0)`. */
  function TotalDefined(root: R.Frame): R.Store {
    R.Store([root, R.Frame(map["total" := R.Num(0)], R.Some(0))], [])
  }

  lemma SumDefines(root: R.Frame, fuel: nat)
    requires Root(root) && fuel >= 2
    ensures R.InScope(TotalDefined(root), 1) && R.InScope(CountStore(root, 0, 1), 1)
    ensures Eval(SumProgram()[0], Start(root), 1, fuel) == Outcome(R.Ok(R.Num(0)), TotalDefined(root))
    ensures Eval(SumProgram()[1], TotalDefined(root), 1, fuel) == Outcome(R.Ok(R.Num(1)), CountStore(root, 0, 1))
  {
    R.FrameOkGrows(root, 0, 2);
    var st0 := Start(root);
    NumRule(0, st0, 1, fuel - 1);
    DefineRule("total", N(0), st0, 1, fuel - 1, R.Num(0), st0);
    assert R.Bind(st0.frames, 1, "total", R.Num(0)) == TotalDefined(root).frames;
    NumRule(1, TotalDefined(root), 1, fuel - 1);
    DefineRule("count", N(1), TotalDefined(root), 1, fuel - 1, R.Num(1), TotalDefined(root));
    assert R.Bind(TotalDefined(root).frames, 1, "count", R.Num(1)) == CountStore(root, 0, 1).frames;
  }

  lemma SumLoops(root: R.Frame, fuel: nat)
    requires Root(root) && fuel >= 15
    ensures R.InScope(CountStore(root, 0, 1), 1)
    ensures Eval(SumProgram()[2], CountStore(root, 0, 1), 1, fuel) == Outcome(R.Ok(R.Bool(false)), CountStore(root, 55, 11))
  {
    SumToTen();
    CountingLoop(root, fuel - 1);
    WhileRule(Cond(), LoopBody(), CountStore(root, 0, 1), 1, fuel - 1);
  }

  lemma SumPrints(root: R.Frame, fuel: nat)
    requires Root(root) && fuel >= 2
    ensures R.InScope(CountStore(root, 55, 11), 1)
    ensures Eval(SumProgram()[3], CountStore(root, 55, 11), 1, fuel) ==
              Outcome(R.Ok(R.Num(55)), CountStore(root, 55, 11).(output := [R.Num(55)]))
  {
    var st := CountStore(root, 55, 11);
    CountStoreFrame(root, 55, 11);
    assert "print" !in st.frames[1].vars;
    WordRule("total", st, 1, fuel - 1, R.Num(55));
    PrintRule(W("total"), st, 1, fuel - 1, R.Num(55), st);
  }

  /** The first sample program prints 55, the sum of 1 to 10. */
  lemma SumProgramPrints(root: R.Frame, fuel: nat)
    requires Root(root) && fuel >= 17
    ensures var o := Eval(Ap("do", SumProgram()), Start(root), 1, fuel);
            o.result == R.Ok(R.Num(55)) && o.store.output == [R.Num(55)]
  {
    var f := fuel - 1;
    SumDefines(root, f);
    SumLoops(root, f);
    SumPrints(root, f);
    var args := SumProgram();
    var st3 := CountStore(root, 55, 11);
    var r := Outcome(R.Ok(R.Num(55)), st3.(output := [R.Num(55)]));
    DoNilRule(args, R.Num(55), r.store, 1, f);
    DoConsRule(args, 3, R.Bool(false), st3, 1, f, R.Num(55), r.store, r);
    DoConsRule(args, 2, R.Num(1), CountStore(root, 0, 1), 1, f, R.Bool(false), st3, r);
    DoConsRule(args, 1, R.Num(0), TotalDefined(root), 1, f, R.Num(1), CountStore(root, 0, 1), r);
    DoConsRule(args, 0, R.Bool(false), Start(root), 1, f, R.Num(0), TotalDefined(root), r);
    DoRule(args, Start(root), 1, f, r);
  }

  // ---------------------------------------------------------------------
  // plusOne: `do(define(plusOne, fun(a, +(a, 1))), print(plusOne(10)))`

  function PlusBody(): Expr { Ap("+", [W("a"), N(1)]) }
  function PlusOne(): R.Value { R.Closure(["a"], PlusBody(), 1) }
  function DefinePlusOne(): Expr { Ap("define", [W("plusOne"), Ap("fun", [W("a"), PlusBody()])]) }
  function PrintPlusOne(): Expr { Ap("print", [Ap("plusOne", [N(10)])]) }

  /** The program's scope once plusOne is defined; the frame of the call
      `plusOne(10)`; and the store after that call's value is printed. */
  function PlusOneDefined(root: R.Frame): R.Store { R.Store([root, R.Frame(map["plusOne" := PlusOne()], R.Some(0))], []) }
  function PlusOneCallFrame(root: R.Frame): R.Store { R.PushFrame(PlusOneDefined(root), map["a" := R.Num(10)], 1) }
  function PlusOnePrinted(root: R.Frame): R.Store { PlusOneCallFrame(root).(output := [R.Num(11)]) }

  lemma PlusStoresOk(root: R.Frame)
    requires Root(root)
    ensures R.InScope(PlusOneDefined(root), 1) && R.InScope(PlusOneCallFrame(root), 2) && R.InScope(PlusOnePrinted(root), 2)
  {
    R.FrameOkGrows(root, 0, 2);
    R.FrameOkGrows(root, 0, 3);
    assert R.ParentOk(PlusOneCallFrame(root).frames, 1);
  }

  lemma PlusDefines(root: R.Frame)
    requires Root(root)
    ensures Eval(DefinePlusOne(), Start(root), 1, 11) == Outcome(R.Ok(PlusOne()), PlusOneDefined(root))
  {
    PlusStoresOk(root);
    var st := Start(root);
    var ps := [W("a")];
    var r := ParamNames(ps);
    assert [W("a")][..0] == [];
    assert r.Some? && |r.value| == 1 && r.value[0] == "a";
    assert r.value == ["a"];
    assert ps + [PlusBody()] == [W("a"), PlusBody()];
    FunRule(ps, PlusBody(), ["a"], st, 1, 9);
    DefineRule("plusOne", Ap("fun", [W("a"), PlusBody()]), st, 1, 10, PlusOne(), st);
    assert R.Bind(st.frames, 1, "plusOne", PlusOne()) == PlusOneDefined(root).frames;
  }

  lemma PlusAdds(root: R.Frame)
    requires Root(root)
    ensures R.InScope(PlusOneCallFrame(root), 2) && Eval(PlusBody(), PlusOneCallFrame(root), 2, 9) == Outcome(R.Ok(R.Num(11)), PlusOneCallFrame(root))
  {
    PlusStoresOk(root);
    var st := PlusOneCallFrame(root);
    assert "+" !in st.frames[2].vars && "+" !in st.frames[1].vars;
    assert R.Lookup(st.frames, 2, "+") == R.Some(R.Native(R.Add));
    assert R.Lookup(st.frames, 2, "a") == R.Some(R.Num(10));
    BinaryAtomsRule("+", W("a"), N(1), st, 2, 9, R.Add, R.Num(10), R.Num(1));
    BuiltinValues(R.Add, 10, 1);
  }

  lemma PlusCalls(root: R.Frame)
    requires Root(root)
    ensures R.InScope(PlusOneDefined(root), 1)
    ensures Eval(Ap("plusOne", [N(10)]), PlusOneDefined(root), 1, 10) == Outcome(R.Ok(R.Num(11)), PlusOneCallFrame(root))
  {
    PlusStoresOk(root);
    var st := PlusOneDefined(root);
    assert R.Lookup(st.frames, 1, "plusOne") == R.Some(PlusOne());
    WordRule("plusOne", st, 1, 9, PlusOne());
    NumRule(10, st, 1, 9);
    PlusAdds(root);
    CallOneRule(W("plusOne"), N(10), "a", PlusBody(), 1, st, 1, 9, st, R.Num(10), st,
                Outcome(R.Ok(R.Num(11)), PlusOneCallFrame(root)));
  }

  lemma PlusPrints(root: R.Frame)
    requires Root(root)
    ensures R.InScope(PlusOneDefined(root), 1) && Eval(PrintPlusOne(), PlusOneDefined(root), 1, 11) == Outcome(R.Ok(R.Num(11)), PlusOnePrinted(root))
  {
    PlusStoresOk(root);
    var st := PlusOneDefined(root);
    assert "print" !in st.frames[1].vars;
    PlusCalls(root);
    PrintRule(Ap("plusOne", [N(10)]), st, 1, 10, R.Num(11), PlusOneCallFrame(root));
  }

  /** The second sample program prints 11 and yields 11. */
  lemma PlusOneProgram(root: R.Frame)
    requires Root(root)
    ensures var o := Eval(Ap("do", [DefinePlusOne(), PrintPlusOne()]), Start(root), 1, 12);
            o.result == R.Ok(R.Num(11)) && o.store.output == [R.Num(11)]
  {
    PlusStoresOk(root);
    PlusDefines(root);
    PlusPrints(root);
    var args := [DefinePlusOne(), PrintPlusOne()];
    var r := Outcome(R.Ok(R.Num(11)), PlusOnePrinted(root));
    DoNilRule(args, R.Num(11), PlusOnePrinted(root), 1, 11);
    DoConsRule(args, 1, PlusOne(), PlusOneDefined(root), 1, 11, R.Num(11), PlusOnePrinted(root), r);
    DoConsRule(args, 0, R.Bool(false), Start(root), 1, 11, PlusOne(), PlusOneDefined(root), r);
    DoRule(args, Start(root), 1, 11, r);
  }

  // ---------------------------------------------------------------------
  // pow: `fun(base, exp, if(==(exp, 0), 1, *(base, pow(base, -(exp, 1)))))`

  function Power(b: int, n: nat): int {
    if n == 0 then 1 else b * Power(b, n - 1)
  }

  function Minus(): Expr { Ap("-", [W("exp"), N(1)]) }
  function Recur(): Expr { Ap("pow", [W("base"), Minus()]) }
  function PowBody(): Expr {
    Ap("if", [Ap("==", [W("exp"), N(0)]), N(1), Ap("*", [W("base"), Recur()])])
  }
  function Pow(s: nat): R.Value { R.Closure(["base", "exp"], PowBody(), s) }

  /** Scope s sees pow itself and the builtins its body uses. */
  predicate PowScope(st: R.Store, s: nat) {
    && R.InScope(st, s)
    && R.Lookup(st.frames, s, "pow") == R.Some(Pow(s))
    && R.Lookup(st.frames, s, "==") == R.Some(R.Native(R.Eq))
    && R.Lookup(st.frames, s, "*") == R.Some(R.Native(R.Mul))
    && R.Lookup(st.frames, s, "-") == R.Some(R.Native(R.Sub))
  }

  /** The frame of a call `pow(b, n)`. */
  function PowCallStore(b: int, n: int, s: nat, st: R.Store): R.Store {
    R.PushFrame(st, map["base" := R.Num(b), "exp" := R.Num(n)], s)
  }

  /** Scope k of inner is the frame of a call `pow(b, n)` made from scope s. */
  predicate PowFrameOf(inner: R.Store, k: nat, b: int, n: int, s: nat) {
    && R.InScope(inner, k) && PowScope(inner, s)
    && R.Lookup(inner.frames, k, "exp") == R.Some(R.Num(n))
    && R.Lookup(inner.frames, k, "base") == R.Some(R.Num(b))
    && R.Lookup(inner.frames, k, "pow") == R.Some(Pow(s))
    && R.Lookup(inner.frames, k, "==") == R.Some(R.Native(R.Eq))
    && R.Lookup(inner.frames, k, "*") == R.Some(R.Native(R.Mul))
    && R.Lookup(inner.frames, k, "-") == R.Some(R.Native(R.Sub))
  }

  lemma PowFrame(b: int, n: int, s: nat, st: R.Store)
    requires PowScope(st, s)
    ensures R.BindParams(["base", "exp"], [R.Num(b), R.Num(n)]) == map["base" := R.Num(b), "exp" := R.Num(n)]
    ensures PowFrameOf(PowCallStore(b, n, s, st), |st.frames|, b, n, s)
  {
    var ps := ["base", "exp"];
    var vs := [R.Num(b), R.Num(n)];
    assert ps[..1] == ["base"] && vs[..1] == [R.Num(b)];
    assert ps[..1][..0] == [] && vs[..1][..0] == [];
    var bm := map["base" := R.Num(b), "exp" := R.Num(n)];
    assert R.BindParams(ps, vs) == bm;
    R.BindParamsOk(ps, vs, |st.frames|);
    R.PushFrameOk(st, bm, s);
    var f := R.Frame(bm, R.Some(s));
    R.AppendedLookup(st.frames, f, s, "pow");
    R.AppendedLookup(st.frames, f, s, "==");
    R.AppendedLookup(st.frames, f, s, "*");
    R.AppendedLookup(st.frames, f, s, "-");
    R.PushedLookup(st.frames, bm, s, "pow");
    R.PushedLookup(st.frames, bm, s, "==");
    R.PushedLookup(st.frames, bm, s, "*");
    R.PushedLookup(st.frames, bm, s, "-");
  }

  lemma PowCondition(n: int, inner: R.Store, k: nat, fuel: nat)
    requires R.InScope(inner, k) && fuel >= 2
    requires R.Lookup(inner.frames, k, "exp") == R.Some(R.Num(n))
    requires R.Lookup(inner.frames, k, "==") == R.Some(R.Native(R.Eq))
    ensures Eval(Ap("==", [W("exp"), N(0)]), inner, k, fuel) == Outcome(R.Ok(R.Bool(n == 0)), inner)
  {
    BinaryAtomsRule("==", W("exp"), N(0), inner, k, fuel, R.Eq, R.Num(n), R.Num(0));
    BuiltinValues(R.Eq, n, 0);
  }

  lemma PowMinus(n: int, inner: R.Store, k: nat, fuel: nat)
    requires R.InScope(inner, k) && fuel >= 2
    requires R.Lookup(inner.frames, k, "exp") == R.Some(R.Num(n))
    requires R.Lookup(inner.frames, k, "-") == R.Some(R.Native(R.Sub))
    ensures Eval(Minus(), inner, k, fuel) == Outcome(R.Ok(R.Num(n - 1)), inner)
  {
    BinaryAtomsRule("-", W("exp"), N(1), inner, k, fuel, R.Sub, R.Num(n), R.Num(1));
    BuiltinValues(R.Sub, n, 1);
  }

  /** The recursive call `pow(base, -(exp, 1))` in the frame of `pow(b, n)`. */
  lemma PowRecur(b: int, n: int, s: nat, inner: R.Store, k: nat, fuel: nat)
    requires R.InScope(inner, k) && 1 <= s < |inner.frames| && fuel >= 3
    requires R.Lookup(inner.frames, k, "pow") == R.Some(Pow(s))
    requires R.Lookup(inner.frames, k, "base") == R.Some(R.Num(b))
    requires R.Lookup(inner.frames, k, "exp") == R.Some(R.Num(n))
    requires R.Lookup(inner.frames, k, "-") == R.Some(R.Native(R.Sub))
    ensures Eval(Recur(), inner, k, fuel) == Call(Pow(s), [R.Num(b), R.Num(n - 1)], inner, fuel - 1)
  {
    R.LookupOk(inner, k, "pow");
    PowMinus(n, inner, k, fuel - 1);
    WordRule("base", inner, k, fuel - 1, R.Num(b));
    ApplyTwoRule("pow", W("base"), Minus(), inner, k, fuel - 1, Pow(s), R.Num(b), R.Num(n - 1),
                 Call(Pow(s), [R.Num(b), R.Num(n - 1)], inner, fuel - 1));
  }

  /** `pow(b, n)` yields b to the power n, for every number b and every
      natural n, given fuel growing linearly with n, and prints nothing. */
  lemma {:induction false} PowComputesPower(b: int, n: nat, s: nat, st: R.Store, fuel: nat) returns (st2: R.Store)
    requires PowScope(st, s) && fuel >= 3 * n + 5
    ensures R.InScope(st2, s) && st2.output == st.output && |st2.frames| > |st.frames|
    ensures Call(Pow(s), [R.Num(b), R.Num(n)], st, fuel) == Outcome(R.Ok(R.Num(Power(b, n))), st2)
    decreases n
  {
    PowFrame(b, n, s, st);
    var inner := PowCallStore(b, n, s, st);
    if n == 0 {
      PowBase(inner, |st.frames|, fuel);
      st2 := inner;
    } else {
      st2 := PowComputesPower(b, n - 1, s, inner, fuel - 3);
      PowBodyStep(b, n, s, inner, |st.frames|, fuel, Power(b, n - 1), st2);
    }
    PowCall(b, n, s, st, fuel, Outcome(R.Ok(R.Num(Power(b, n))), st2));
  }

  /** A call `pow(b, n)` runs pow's body in a new frame binding base and exp. */
  lemma PowCall(b: int, n: int, s: nat, st: R.Store, fuel: nat, r: Outcome<R.Value>)
    requires PowScope(st, s) && R.InScope(PowCallStore(b, n, s, st), |st.frames|)
    requires Eval(PowBody(), PowCallStore(b, n, s, st), |st.frames|, fuel) == r
    ensures Call(Pow(s), [R.Num(b), R.Num(n)], st, fuel) == r
  {
    PowFrame(b, n, s, st);
    CallClosureRule(["base", "exp"], PowBody(), s, [R.Num(b), R.Num(n)], st, fuel, PowCallStore(b, n, s, st), r);
  }

  /** With exp 0 the body yields 1. */
  lemma PowBase(inner: R.Store, k: nat, fuel: nat)
    requires R.InScope(inner, k) && fuel >= 3
    requires R.Lookup(inner.frames, k, "exp") == R.Some(R.Num(0))
    requires R.Lookup(inner.frames, k, "==") == R.Some(R.Native(R.Eq))
    ensures Eval(PowBody(), inner, k, fuel) == Outcome(R.Ok(R.Num(1)), inner)
  {
    PowCondition(0, inner, k, fuel - 1);
    IfRule(Ap("==", [W("exp"), N(0)]), N(1), Ap("*", [W("base"), Recur()]), inner, k, fuel - 1, R.Bool(true), inner);
    NumRule(1, inner, k, fuel - 1);
  }

  /** With a positive exp the body is the product. */
  lemma PowChoosesProduct(n: int, inner: R.Store, k: nat, fuel: nat)
    requires R.InScope(inner, k) && n != 0 && fuel >= 3
    requires R.Lookup(inner.frames, k, "exp") == R.Some(R.Num(n))
    requires R.Lookup(inner.frames, k, "==") == R.Some(R.Native(R.Eq))
    ensures Eval(PowBody(), inner, k, fuel) == Eval(Ap("*", [W("base"), Recur()]), inner, k, fuel - 1)
  {
    var c := Ap("==", [W("exp"), N(0)]);
    PowCondition(n, inner, k, fuel - 1);
    assert PowBody() == Ap("if", [c, N(1), Ap("*", [W("base"), Recur()])]);
    IfFalseRule(c, N(1), Ap("*", [W("base"), Recur()]), inner, k, fuel - 1, inner);
  }

  /** With a positive exp, pow's body multiplies b by what the recursive call
      `pow(b, n - 1)` yields, and leaves the store that call leaves. */
  lemma PowBodyStep(b: int, n: int, s: nat, inner: R.Store, k: nat, fuel: nat, p: int, st1: R.Store)
    requires R.InScope(inner, k) && n != 0 && fuel >= 5
    requires R.Lookup(inner.frames, k, "pow") == R.Some(Pow(s))
    requires R.Lookup(inner.frames, k, "base") == R.Some(R.Num(b))
    requires R.Lookup(inner.frames, k, "exp") == R.Some(R.Num(n))
    requires R.Lookup(inner.frames, k, "-") == R.Some(R.Native(R.Sub))
    requires R.Lookup(inner.frames, k, "*") == R.Some(R.Native(R.Mul))
    requires R.Lookup(inner.frames, k, "==") == R.Some(R.Native(R.Eq))
    requires R.InScope(st1, k) && 1 <= s < |inner.frames|
    requires Call(Pow(s), [R.Num(b), R.Num(n - 1)], inner, fuel - 3) == Outcome(R.Ok(R.Num(p)), st1)
    ensures Eval(PowBody(), inner, k, fuel) == Outcome(R.Ok(R.Num(b * p)), st1)
  {
    PowChoosesProduct(n, inner, k, fuel);
    PowProduct(b, n, s, inner, k, fuel - 1, p, st1);
  }

  /** The else branch `*(base, pow(base, -(exp, 1)))`, given what the recursive call yields. */
  lemma PowProduct(b: int, n: int, s: nat, inner: R.Store, k: nat, fuel: nat, p: int, st1: R.Store)
    requires R.InScope(inner, k) && fuel >= 4
    requires R.Lookup(inner.frames, k, "pow") == R.Some(Pow(s))
    requires R.Lookup(inner.frames, k, "base") == R.Some(R.Num(b))
    requires R.Lookup(inner.frames, k, "exp") == R.Some(R.Num(n))
    requires R.Lookup(inner.frames, k, "-") == R.Some(R.Native(R.Sub))
    requires R.Lookup(inner.frames, k, "*") == R.Some(R.Native(R.Mul))
    requires R.InScope(st1, k) && 1 <= s < |inner.frames|
    requires Call(Pow(s), [R.Num(b), R.Num(n - 1)], inner, fuel - 2) == Outcome(R.Ok(R.Num(p)), st1)
    ensures Eval(Ap("*", [W("base"), Recur()]), inner, k, fuel) == Outcome(R.Ok(R.Num(b * p)), st1)
  {
    PowRecur(b, n, s, inner, k, fuel - 1);
    PowTimes(b, inner, k, fuel, p, st1);
  }

  /** `*(base, pow(base, -(exp, 1)))` multiplies b by what the recursive call yields. */
  lemma PowTimes(b: int, inner: R.Store, k: nat, fuel: nat, p: int, st2: R.Store)
    requires R.InScope(inner, k) && fuel >= 2
    requires R.Lookup(inner.frames, k, "base") == R.Some(R.Num(b))
    requires R.Lookup(inner.frames, k, "*") == R.Some(R.Native(R.Mul))
    requires R.InScope(st2, k) && Eval(Recur(), inner, k, fuel - 1) == Outcome(R.Ok(R.Num(p)), st2)
    ensures Eval(Ap("*", [W("base"), Recur()]), inner, k, fuel) == Outcome(R.Ok(R.Num(b * p)), st2)
  {
    WordRule("base", inner, k, fuel - 1, R.Num(b));
    BinaryRule("*", W("base"), Recur(), inner, k, fuel - 1, R.Mul, R.Num(b), inner, R.Num(p), st2);
    BuiltinValues(R.Mul, b, p);
  }



  // The third sample program: `do(define(pow, fun(base, exp, ...)), print(pow(2, 10)))`.

  function DefinePow(): Expr { Ap("define", [W("pow"), Ap("fun", [W("base"), W("exp"), PowBody()])]) }
  function PrintPow(): Expr { Ap("print", [Ap("pow", [N(2), N(10)])]) }

  /** The store after `pow` is defined in the program's scope. */
  function PowGlobals(root: R.Frame): R.Store { R.Store([root, R.Frame(map["pow" := Pow(1)], R.Some(0))], []) }

  lemma PowDefined(root: R.Frame)
    requires Root(root)
    ensures PowScope(PowGlobals(root), 1)
    ensures Eval(DefinePow(), Start(root), 1, 40) == Outcome(R.Ok(Pow(1)), PowGlobals(root))
  {
    R.FrameOkGrows(root, 0, 2);
    var st := Start(root);
    var ps := [W("base"), W("exp")];
    var r := ParamNames(ps);
    assert ps[..1] == [W("base")] && ps[..1][..0] == [];
    assert r.Some? && |r.value| == 2 && r.value[0] == "base" && r.value[1] == "exp";
    assert r.value == ["base", "exp"];
    assert ps + [PowBody()] == [W("base"), W("exp"), PowBody()];
    FunRule(ps, PowBody(), ["base", "exp"], st, 1, 38);
    DefineRule("pow", Ap("fun", [W("base"), W("exp"), PowBody()]), st, 1, 39, Pow(1), st);
    assert R.Bind(st.frames, 1, "pow", Pow(1)) == PowGlobals(root).frames;
    var q := PowGlobals(root);
    assert "==" !in q.frames[1].vars && "*" !in q.frames[1].vars && "-" !in q.frames[1].vars;
  }

  lemma PowOfTwoTen()
    ensures Power(2, 10) == 1024
  {
    assert Power(2, 2) == 4;
    assert Power(2, 5) == 32;
    assert Power(2, 8) == 256;
  }

  /** A call `pow(b, n)` written with two numerals yields b to the power n
      and prints nothing. */
  lemma PowCallYields(b: nat, n: nat, s: nat, st: R.Store, fuel: nat) returns (st2: R.Store)
    requires PowScope(st, s) && fuel >= 3 * n + 6
    ensures R.InScope(st2, s) && st2.output == st.output
    ensures Eval(Ap("pow", [N(b), N(n)]), st, s, fuel) == Outcome(R.Ok(R.Num(Power(b, n))), st2)
  {
    st2 := PowComputesPower(b, n, s, st, fuel - 1);
    R.LookupOk(st, s, "pow");
    NumRule(b, st, s, fuel - 1);
    NumRule(n, st, s, fuel - 1);
    ApplyTwoRule("pow", N(b), N(n), st, s, fuel - 1, Pow(s), R.Num(b), R.Num(n),
                 Outcome(R.Ok(R.Num(Power(b, n))), st2));
  }

  lemma PowPrints(root: R.Frame)
    requires Root(root)
    ensures R.InScope(PowGlobals(root), 1)
    ensures var o := Eval(PrintPow(), PowGlobals(root), 1, 40);
            o.result == R.Ok(R.Num(1024)) && o.store.output == [R.Num(1024)]
  {
    PowDefined(root);
    var st := PowGlobals(root);
    var st2 := PowCallYields(2, 10, 1, st, 39);
    PowOfTwoTen();
    assert "print" !in st.frames[1].vars;
    PrintRule(Ap("pow", [N(2), N(10)]), st, 1, 39, R.Num(1024), st2);
  }

  /** The third sample program prints 1024, two to the power ten. */
  lemma PowProgram(root: R.Frame)
    requires Root(root)
    ensures var o := Eval(Ap("do", [DefinePow(), PrintPow()]), Start(root), 1, 41);
            o.result == R.Ok(R.Num(1024)) && o.store.output == [R.Num(1024)]
  {
    PowDefined(root);
    PowPrints(root);
    var args := [DefinePow(), PrintPow()];
    var o := Eval(PrintPow(), PowGlobals(root), 1, 40);
    assert o == Outcome(R.Ok(R.Num(1024)), o.store);
    DoNilRule(args, R.Num(1024), o.store, 1, 40);
    DoConsRule(args, 1, Pow(1), PowGlobals(root), 1, 40, R.Num(1024), o.store, o);
    DoConsRule(args, 0, R.Bool(false), Start(root), 1, 40, Pow(1), PowGlobals(root), o);
    DoRule(args, Start(root), 1, 40, o);
  }

  // ---------------------------------------------------------------------
  // The closure sample: `do(define(f, fun(a, fun(b, +(a, b)))), print(f(4)(5)))`.

  function Adder(): Expr { Ap("+", [W("a"), W("b")]) }
  function Inner(): Expr { Ap("fun", [W("b"), Adder()]) }
  function DefineF(): Expr { Ap("define", [W("f"), Ap("fun", [W("a"), Inner()])]) }
  function CallF(): Expr { Apply(Ap("f", [N(4)]), [N(5)]) }
  function FClosure(): R.Value { R.Closure(["a"], Inner(), 1) }
  function GClosure(): R.Value { R.Closure(["b"], Adder(), 2) }

  /** The program's scope once f is defined; the frame of the call `f(4)`;
      and the frame of the call of its result on 5. */
  function ClosureGlobals(root: R.Frame): R.Store { R.Store([root, R.Frame(map["f" := FClosure()], R.Some(0))], []) }
  function FCallFrame(root: R.Frame): R.Store { R.PushFrame(ClosureGlobals(root), map["a" := R.Num(4)], 1) }
  function GCallFrame(root: R.Frame): R.Store { R.PushFrame(FCallFrame(root), map["b" := R.Num(5)], 2) }

  lemma ClosureStoresOk(root: R.Frame)
    requires Root(root)
    ensures R.InScope(ClosureGlobals(root), 1) && R.InScope(FCallFrame(root), 2) && R.InScope(GCallFrame(root), 3)
  {
    R.FrameOkGrows(root, 0, 2);
    R.FrameOkGrows(root, 0, 3);
    R.FrameOkGrows(root, 0, 4);
    assert R.ParentOk(FCallFrame(root).frames, 1) && R.ParentOk(GCallFrame(root).frames, 1) && R.ParentOk(GCallFrame(root).frames, 2);
  }

  lemma OneParam(x: string, e: Expr) returns (ps: seq<Expr>)
    ensures ps == [W(x)] && ParamNames(ps) == R.Some([x]) && ps + [e] == [W(x), e]
  {
    ps := [W(x)];
    var r := ParamNames(ps);
    assert ps[..0] == [];
    assert r.Some? && |r.value| == 1 && r.value[0] == x;
    assert r.value == [x];
  }

  lemma FDefined(root: R.Frame, fuel: nat)
    requires Root(root) && fuel >= 3
    ensures Eval(DefineF(), Start(root), 1, fuel) == Outcome(R.Ok(FClosure()), ClosureGlobals(root))
  {
    ClosureStoresOk(root);
    var st := Start(root);
    var ps := OneParam("a", Inner());
    FunRule(ps, Inner(), ["a"], st, 1, fuel - 2);
    DefineRule("f", Ap("fun", [W("a"), Inner()]), st, 1, fuel - 1, FClosure(), st);
    assert R.Bind(st.frames, 1, "f", FClosure()) == ClosureGlobals(root).frames;
  }

  /** Inside `f(4)`, `fun(b, +(a, b))` makes a closure over the new frame. */
  lemma InnerMakesClosure(root: R.Frame, fuel: nat)
    requires Root(root) && fuel >= 1
    ensures R.InScope(FCallFrame(root), 2) && Eval(Inner(), FCallFrame(root), 2, fuel) == Outcome(R.Ok(GClosure()), FCallFrame(root))
  {
    ClosureStoresOk(root);
    var ps := OneParam("b", Adder());
    FunRule(ps, Adder(), ["b"], FCallFrame(root), 2, fuel - 1);
  }

  /** `f(4)` returns a closure over the frame that binds a to 4. */
  lemma FReturnsClosure(root: R.Frame, fuel: nat)
    requires Root(root) && fuel >= 3
    ensures R.InScope(ClosureGlobals(root), 1)
    ensures Eval(Ap("f", [N(4)]), ClosureGlobals(root), 1, fuel) == Outcome(R.Ok(GClosure()), FCallFrame(root))
  {
    ClosureStoresOk(root);
    var st := ClosureGlobals(root);
    WordRule("f", st, 1, fuel - 1, FClosure());
    NumRule(4, st, 1, fuel - 1);
    InnerMakesClosure(root, fuel - 1);
    CallOneRule(W("f"), N(4), "a", Inner(), 1, st, 1, fuel - 1, st, R.Num(4), st,
                Outcome(R.Ok(GClosure()), FCallFrame(root)));
  }

  /** The returned closure still sees a = 4 from the call that made it. */
  lemma GAdds(root: R.Frame, fuel: nat)
    requires Root(root) && fuel >= 2
    ensures R.InScope(GCallFrame(root), 3) && Eval(Adder(), GCallFrame(root), 3, fuel) == Outcome(R.Ok(R.Num(9)), GCallFrame(root))
  {
    ClosureStoresOk(root);
    var st := GCallFrame(root);
    assert "a" !in st.frames[3].vars && "+" !in st.frames[3].vars && "+" !in st.frames[2].vars;
    assert "+" !in st.frames[1].vars;
    BinaryAtomsRule("+", W("a"), W("b"), st, 3, fuel, R.Add, R.Num(4), R.Num(5));
    BuiltinValues(R.Add, 4, 5);
  }

  lemma FCalledTwice(root: R.Frame, fuel: nat)
    requires Root(root) && fuel >= 5
    ensures R.InScope(ClosureGlobals(root), 1)
    ensures Eval(CallF(), ClosureGlobals(root), 1, fuel) == Outcome(R.Ok(R.Num(9)), GCallFrame(root))
  {
    ClosureStoresOk(root);
    FReturnsClosure(root, fuel - 1);
    NumRule(5, FCallFrame(root), 1, fuel - 1);
    GAdds(root, fuel - 1);
    CallOneRule(Ap("f", [N(4)]), N(5), "b", Adder(), 2, ClosureGlobals(root), 1, fuel - 1, FCallFrame(root), R.Num(5), FCallFrame(root),
                Outcome(R.Ok(R.Num(9)), GCallFrame(root)));
  }

  /** The closure sample prints 9: the inner function adds its own argument
      to the argument of the call that created it. */
  lemma ClosureProgram(root: R.Frame, fuel: nat)
    requires Root(root) && fuel >= 8
    ensures var o := Eval(Ap("do", [DefineF(), Ap("print", [CallF()])]), Start(root), 1, fuel);
            o.result == R.Ok(R.Num(9)) && o.store.output == [R.Num(9)]
  {
    var f := fuel - 1;
    ClosureStoresOk(root);
    FDefined(root, f);
    FCalledTwice(root, f - 1);
    assert "print" !in ClosureGlobals(root).frames[1].vars;
    PrintRule(CallF(), ClosureGlobals(root), 1, f - 1, R.Num(9), GCallFrame(root));
    var args := [DefineF(), Ap("print", [CallF()])];
    var r := Outcome(R.Ok(R.Num(9)), GCallFrame(root).(output := [R.Num(9)]));
    DoNilRule(args, R.Num(9), r.store, 1, f);
    DoConsRule(args, 1, FClosure(), ClosureGlobals(root), 1, f, R.Num(9), r.store, r);
    DoConsRule(args, 0, R.Bool(false), Start(root), 1, f, FClosure(), ClosureGlobals(root), r);
    DoRule(args, Start(root), 1, f, r);
  }

  // ---------------------------------------------------------------------
  // The `set` sample: `do(define(x, 4), define(setx, fun(val, set(x, val))), setx(50), print(x))`.

  function SetBody(): Expr { Ap("set", [W("x"), W("val")]) }
  function SetX(): R.Value { R.Closure(["val"], SetBody(), 1) }
  function SetSample(): seq<Expr> {
    [Ap("define", [W("x"), N(4)]), Ap("define", [W("setx"), Ap("fun", [W("val"), SetBody()])]),
     Ap("setx", [N(50)]), Ap("print", [W("x")])]
  }

  /** The program's scope after `define(x, 4)`, then after setx is defined;
      and the frame of the call `setx(50)`. */
  function XBound(root: R.Frame): R.Store { R.Store([root, R.Frame(map["x" := R.Num(4)], R.Some(0))], []) }
  function SetxBound(root: R.Frame): R.Store {
    R.Store([root, R.Frame(map["x" := R.Num(4), "setx" := SetX()], R.Some(0))], [])
  }
  function SetxCallFrame(root: R.Frame): R.Store { R.PushFrame(SetxBound(root), map["val" := R.Num(50)], 1) }
  /** After `setx(50)`: x in the program's scope is now 50. */
  function XAfterSet(root: R.Frame): R.Store {
    R.Store([root, R.Frame(map["x" := R.Num(50), "setx" := SetX()], R.Some(0)),
             R.Frame(map["val" := R.Num(50)], R.Some(1))], [])
  }

  lemma XStoresOk(root: R.Frame)
    requires Root(root)
    ensures R.InScope(XBound(root), 1) && R.InScope(SetxBound(root), 1)
  {
    R.FrameOkGrows(root, 0, 2);
  }

  lemma XCallStoresOk(root: R.Frame)
    requires Root(root)
    ensures R.InScope(SetxCallFrame(root), 2) && R.InScope(XAfterSet(root), 2)
  {
    R.FrameOkGrows(root, 0, 3);
    assert R.ParentOk(SetxCallFrame(root).frames, 1) && R.ParentOk(SetxCallFrame(root).frames, 2);
    assert R.ParentOk(XAfterSet(root).frames, 1) && R.ParentOk(XAfterSet(root).frames, 2);
  }

  lemma XDefined(root: R.Frame, fuel: nat)
    requires Root(root) && fuel >= 3
    ensures Eval(SetSample()[0], Start(root), 1, fuel) == Outcome(R.Ok(R.Num(4)), XBound(root))
    ensures Eval(SetSample()[1], XBound(root), 1, fuel) == Outcome(R.Ok(SetX()), SetxBound(root))
  {
    XStoresOk(root);
    var st := Start(root);
    NumRule(4, st, 1, fuel - 1);
    DefineRule("x", N(4), st, 1, fuel - 1, R.Num(4), st);
    assert R.Bind(st.frames, 1, "x", R.Num(4)) == XBound(root).frames;
    var ps := OneParam("val", SetBody());
    FunRule(ps, SetBody(), ["val"], XBound(root), 1, fuel - 2);
    DefineRule("setx", Ap("fun", [W("val"), SetBody()]), XBound(root), 1, fuel - 1, SetX(), XBound(root));
    assert R.Bind(XBound(root).frames, 1, "setx", SetX()) == SetxBound(root).frames;
  }

  /** Inside the call, `set(x, val)` writes the x of the scope setx was made in. */
  lemma XSet(root: R.Frame, fuel: nat)
    requires Root(root) && fuel >= 2
    ensures R.InScope(SetxCallFrame(root), 2) && Eval(SetBody(), SetxCallFrame(root), 2, fuel) == Outcome(R.Ok(R.Num(50)), XAfterSet(root))
  {
    XCallStoresOk(root);
    var st := SetxCallFrame(root);
    WordRule("val", st, 2, fuel - 1, R.Num(50));
    assert "x" !in st.frames[2].vars && "x" in st.frames[1].vars;
    assert R.SetTarget(st.frames, 2, "x") == R.Some(1);
    SetRule("x", W("val"), st, 2, fuel - 1, R.Num(50), st, 1);
    var m := map["x" := R.Num(4), "setx" := SetX()];
    assert m["x" := R.Num(50)] == map["x" := R.Num(50), "setx" := SetX()];
    assert R.Bind(st.frames, 1, "x", R.Num(50)) == XAfterSet(root).frames;
  }

  lemma XCalled(root: R.Frame, fuel: nat)
    requires Root(root) && fuel >= 4
    ensures R.InScope(SetxBound(root), 1) && Eval(SetSample()[2], SetxBound(root), 1, fuel) == Outcome(R.Ok(R.Num(50)), XAfterSet(root))
  {
    XStoresOk(root);
    XCallStoresOk(root);
    var st := SetxBound(root);
    assert R.Lookup(st.frames, 1, "setx") == R.Some(SetX());
    WordRule("setx", st, 1, fuel - 1, SetX());
    NumRule(50, st, 1, fuel - 1);
    XSet(root, fuel - 1);
    CallOneRule(W("setx"), N(50), "val", SetBody(), 1, st, 1, fuel - 1, st, R.Num(50), st,
                Outcome(R.Ok(R.Num(50)), XAfterSet(root)));
  }

  lemma XPrinted(root: R.Frame, fuel: nat)
    requires Root(root) && fuel >= 2
    ensures R.InScope(XAfterSet(root), 1)
    ensures Eval(SetSample()[3], XAfterSet(root), 1, fuel) == Outcome(R.Ok(R.Num(50)), XAfterSet(root).(output := [R.Num(50)]))
  {
    XCallStoresOk(root);
    var st := XAfterSet(root);
    assert "print" !in st.frames[1].vars;
    WordRule("x", st, 1, fuel - 1, R.Num(50));
    PrintRule(W("x"), st, 1, fuel - 1, R.Num(50), st);
  }

  /** The `set` sample prints 50: the call's `set` changed the outer x. */
  lemma SetProgram(root: R.Frame, fuel: nat)
    requires Root(root) && fuel >= 6
    ensures var o := Eval(Ap("do", SetSample()), Start(root), 1, fuel);
            o.result == R.Ok(R.Num(50)) && o.store.output == [R.Num(50)]
  {
    var f := fuel - 1;
    XStoresOk(root);
    XDefined(root, f);
    XCalled(root, f);
    XPrinted(root, f);
    var args := SetSample();
    var r := Outcome(R.Ok(R.Num(50)), XAfterSet(root).(output := [R.Num(50)]));
    DoNilRule(args, R.Num(50), r.store, 1, f);
    DoConsRule(args, 3, R.Num(50), XAfterSet(root), 1, f, R.Num(50), r.store, r);
    DoConsRule(args, 2, SetX(), SetxBound(root), 1, f, R.Num(50), XAfterSet(root), r);
    DoConsRule(args, 1, R.Num(4), XBound(root), 1, f, SetX(), SetxBound(root), r);
    DoConsRule(args, 0, R.Bool(false), Start(root), 1, f, R.Num(4), XBound(root), r);
    DoRule(args, Start(root), 1, f, r);
  }
}
