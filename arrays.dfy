/** The array sample program, followed through the model:
    `do(define(sumArray, fun(array, do(define(i, 0), define(sum, 0),
          while(<(i, length(array)), do(define(sum, +(sum, element(array, i))),
                                        define(i, +(i, 1)))),
          sum))),
        print(sumArray(array(1, 2, 3))))`
    The parameter `array` shadows the builtin of that name inside the
    function, while the argument `array(1, 2, 3)` still calls the builtin. */
module ArrayProgram {
  import opened Ast
  import R = Runtime
  import Builtins
  import opened Semantics
  import opened Steps

  /** e, evaluated in scope sc of st with the given fuel, yields v and
      leaves the store st1. */
  predicate Yields(e: Expr, st: R.Store, sc: nat, fuel: nat, v: R.Value, st1: R.Store) {
    R.InScope(st, sc) && Eval(e, st, sc, fuel) == Outcome(R.Ok(v), st1)
  }

  /** A root scope that also binds the array builtins. */
  predicate ArrayRoot(f: R.Frame) {
    && Root(f)
    && "array" in f.vars && f.vars["array"] == R.Native(R.MakeArray)
    && "length" in f.vars && f.vars["length"] == R.Native(R.Length)
    && "element" in f.vars && f.vars["element"] == R.Native(R.Element)
  }

  lemma TopFrameIsArrayRoot()
    ensures ArrayRoot(Builtins.TopFrame())
  {
    TopFrameIsRoot();
  }

  function Count(): Expr { Ap("length", [W("array")]) }
  function Cond(): Expr { Ap("<", [W("i"), Count()]) }
  function Elem(): Expr { Ap("element", [W("array"), W("i")]) }
  function SumValue(): Expr { Ap("+", [W("sum"), Elem()]) }
  function AddSum(): Expr { Ap("define", [W("sum"), SumValue()]) }
  function Inc(): Expr { Ap("+", [W("i"), N(1)]) }
  function AddI(): Expr { Ap("define", [W("i"), Inc()]) }
  function LoopBody(): Expr { Ap("do", [AddSum(), AddI()]) }
  function Loop(): Expr { Ap("while", [Cond(), LoopBody()]) }
  function InitI(): Expr { Ap("define", [W("i"), N(0)]) }
  function InitSum(): Expr { Ap("define", [W("sum"), N(0)]) }
  function BodyArgs(): seq<Expr> { [InitI(), InitSum(), Loop(), W("sum")] }
  function Body(): Expr { Ap("do", BodyArgs()) }
  function SumArray(): R.Value { R.Closure(["array"], Body(), 1) }
  function FunExpr(): Expr { Ap("fun", [W("array"), Body()]) }
  function DefineSumArray(): Expr { Ap("define", [W("sumArray"), FunExpr()]) }
  function OneTwoThree(): Expr { Ap("array", [N(1), N(2), N(3)]) }
  function CallSum(): Expr { Ap("sumArray", [OneTwoThree()]) }
  function PrintSum(): Expr { Ap("print", [CallSum()]) }
  function Program(): Expr { Ap("do", [DefineSumArray(), PrintSum()]) }

  function Elems(): seq<R.Value> { [R.Num(1), R.Num(2), R.Num(3)] }

  /** The frame `define(sumArray, …)` fills, below the root. */
  function Globals(): R.Frame { R.Frame(map["sumArray" := SumArray()], R.Some(0)) }
  /** The program's scope once sumArray is defined. */
  function AfterDefine(root: R.Frame): R.Store { R.Store([root, Globals()], []) }
  /** The frame of the call `sumArray(array(1, 2, 3))`, before its body runs. */
  function CallFrameStore(root: R.Frame): R.Store {
    R.Store([root, Globals(), R.Frame(map["array" := R.Arr(Elems())], R.Some(1))], [])
  }
  /** The call's frame after `define(i, 0)`. */
  function AfterInitI(root: R.Frame): R.Store {
    R.Store([root, Globals(), R.Frame(map["array" := R.Arr(Elems()), "i" := R.Num(0)], R.Some(1))], [])
  }
  /** The call's bindings while the loop runs, with sum s and index i. */
  function LoopVars(s: int, i: int): map<string, R.Value> {
    map["array" := R.Arr(Elems()), "i" := R.Num(i), "sum" := R.Num(s)]
  }
  function LoopStore(root: R.Frame, s: int, i: int): R.Store {
    R.Store([root, Globals(), R.Frame(LoopVars(s, i), R.Some(1))], [])
  }

  lemma {:induction false} AfterDefineOk(root: R.Frame)
    requires ArrayRoot(root)
    ensures R.InScope(AfterDefine(root), 1)
  {
    R.FrameOkGrows(root, 0, 2);
  }

  lemma {:induction false} CallFrameStoreOk(root: R.Frame)
    requires ArrayRoot(root)
    ensures R.InScope(CallFrameStore(root), 2)
  {
    R.FrameOkGrows(root, 0, 3);
    assert R.ParentOk(CallFrameStore(root).frames, 1);
  }

  lemma {:induction false} AfterInitIOk(root: R.Frame)
    requires ArrayRoot(root)
    ensures R.InScope(AfterInitI(root), 2)
  {
    R.FrameOkGrows(root, 0, 3);
    assert R.ParentOk(AfterInitI(root).frames, 1);
  }

  lemma {:induction false} LoopStoreOk(root: R.Frame, s: int, i: int)
    requires ArrayRoot(root)
    ensures R.InScope(LoopStore(root, s, i), 2)
  {
    R.FrameOkGrows(root, 0, 3);
    assert R.ParentOk(LoopStore(root, s, i).frames, 1);
  }

  /** In the call's frame, i and `+` resolve as `define(i, +(i, 1))` needs. */
  lemma {:induction false} LoopStoreIndex(root: R.Frame, s: int, i: int)
    requires ArrayRoot(root)
    ensures R.InScope(LoopStore(root, s, i), 2)
    ensures R.Lookup(LoopStore(root, s, i).frames, 2, "i") == R.Some(R.Num(i))
    ensures R.Lookup(LoopStore(root, s, i).frames, 2, "+") == R.Some(R.Native(R.Add))
  {
    LoopStoreOk(root, s, i);
    var st := LoopStore(root, s, i);
    assert "+" !in st.frames[2].vars && "+" !in st.frames[1].vars;
  }

  /** In the call's frame, the names `define(sum, +(sum, element(array, i)))`
      uses resolve to the argument, the two counters and the builtins. */
  lemma {:induction false} LoopStoreSum(root: R.Frame, s: int, i: int)
    requires ArrayRoot(root)
    ensures R.InScope(LoopStore(root, s, i), 2)
    ensures R.Lookup(LoopStore(root, s, i).frames, 2, "array") == R.Some(R.Arr(Elems()))
    ensures R.Lookup(LoopStore(root, s, i).frames, 2, "i") == R.Some(R.Num(i))
    ensures R.Lookup(LoopStore(root, s, i).frames, 2, "sum") == R.Some(R.Num(s))
    ensures R.Lookup(LoopStore(root, s, i).frames, 2, "+") == R.Some(R.Native(R.Add))
    ensures R.Lookup(LoopStore(root, s, i).frames, 2, "element") == R.Some(R.Native(R.Element))
  {
    LoopStoreOk(root, s, i);
    var st := LoopStore(root, s, i);
    assert "+" !in st.frames[2].vars && "+" !in st.frames[1].vars;
    assert "element" !in st.frames[2].vars && "element" !in st.frames[1].vars;
  }

  /** In the call's frame, `array` is the argument and `length` the builtin. */
  lemma {:induction false} LoopStoreLength(root: R.Frame, s: int, i: int)
    requires ArrayRoot(root)
    ensures R.InScope(LoopStore(root, s, i), 2)
    ensures R.Lookup(LoopStore(root, s, i).frames, 2, "array") == R.Some(R.Arr(Elems()))
    ensures R.Lookup(LoopStore(root, s, i).frames, 2, "length") == R.Some(R.Native(R.Length))
  {
    LoopStoreOk(root, s, i);
    var st := LoopStore(root, s, i);
    assert "length" !in st.frames[2].vars && "length" !in st.frames[1].vars;
  }

  /** In the call's frame, i is the index and `<` the builtin. */
  lemma {:induction false} LoopStoreLess(root: R.Frame, s: int, i: int)
    requires ArrayRoot(root)
    ensures R.Lookup(LoopStore(root, s, i).frames, 2, "i") == R.Some(R.Num(i))
    ensures R.Lookup(LoopStore(root, s, i).frames, 2, "<") == R.Some(R.Native(R.Lt))
  {
    var st := LoopStore(root, s, i);
    assert "<" !in st.frames[2].vars && "<" !in st.frames[1].vars;
  }

  /** `length(array)` inside the call is 3, the length of the argument. */
  lemma {:induction false} LengthIsThree(st: R.Store, fuel: nat)
    requires R.InScope(st, 2) && fuel >= 2
    requires R.Lookup(st.frames, 2, "array") == R.Some(R.Arr(Elems()))
    requires R.Lookup(st.frames, 2, "length") == R.Some(R.Native(R.Length))
    ensures Yields(Count(), st, 2, fuel, R.Num(3), st)
  {
    WordRule("array", st, 2, fuel - 1, R.Arr(Elems()));
    UnaryRule("length", W("array"), st, 2, fuel - 1, R.Length, R.Arr(Elems()), st);
  }

  /** The loop's condition compares i with that length. */
  lemma {:induction false} CountCondition(st: R.Store, i: int, fuel: nat)
    requires fuel >= 2 && Yields(Count(), st, 2, fuel - 1, R.Num(3), st)
    requires R.Lookup(st.frames, 2, "i") == R.Some(R.Num(i))
    requires R.Lookup(st.frames, 2, "<") == R.Some(R.Native(R.Lt))
    ensures Yields(Cond(), st, 2, fuel, R.Bool(i < 3), st)
  {
    WordRule("i", st, 2, fuel - 1, R.Num(i));
    BinaryRule("<", W("i"), Count(), st, 2, fuel - 1, R.Lt, R.Num(i), st, R.Num(3), st);
    LtValues(i, 3);
  }

  /** `element(array, i)` is the i-th entry of the argument, i + 1. */
  lemma {:induction false} ElementAt(st: R.Store, i: nat, fuel: nat)
    requires R.InScope(st, 2) && i < 3 && fuel >= 2
    requires R.Lookup(st.frames, 2, "array") == R.Some(R.Arr(Elems()))
    requires R.Lookup(st.frames, 2, "i") == R.Some(R.Num(i))
    requires R.Lookup(st.frames, 2, "element") == R.Some(R.Native(R.Element))
    ensures Yields(Elem(), st, 2, fuel, R.Num(i + 1), st)
  {
    BinaryAtomsRule("element", W("array"), W("i"), st, 2, fuel, R.Element, R.Arr(Elems()), R.Num(i));
    ElementValues(Elems(), i);
  }

  lemma {:induction false} SumPlus(st: R.Store, s: int, e: int, v: int, fuel: nat)
    requires fuel >= 2 && v == s + e
    requires Yields(Elem(), st, 2, fuel - 1, R.Num(e), st)
    requires R.Lookup(st.frames, 2, "sum") == R.Some(R.Num(s))
    requires R.Lookup(st.frames, 2, "+") == R.Some(R.Native(R.Add))
    ensures Yields(SumValue(), st, 2, fuel, R.Num(v), st)
  {
    WordRule("sum", st, 2, fuel - 1, R.Num(s));
    BinaryRule("+", W("sum"), Elem(), st, 2, fuel - 1, R.Add, R.Num(s), st, R.Num(e), st);
    AddValues(s, e, v);
  }

  lemma {:induction false} IPlusOne(st: R.Store, i: int, v: int, fuel: nat)
    requires R.InScope(st, 2) && fuel >= 2 && v == i + 1
    requires R.Lookup(st.frames, 2, "i") == R.Some(R.Num(i))
    requires R.Lookup(st.frames, 2, "+") == R.Some(R.Native(R.Add))
    ensures Yields(Inc(), st, 2, fuel, R.Num(v), st)
  {
    BinaryAtomsRule("+", W("i"), N(1), st, 2, fuel, R.Add, R.Num(i), R.Num(1));
    AddValues(i, 1, v);
  }

  /** `define(sum, …)` in the call's frame replaces that one binding. */
  lemma {:induction false} DefineSum(root: R.Frame, s: int, i: int, v: int, fuel: nat)
    requires fuel >= 1
    requires Yields(SumValue(), LoopStore(root, s, i), 2, fuel - 1, R.Num(v), LoopStore(root, s, i))
    ensures Yields(AddSum(), LoopStore(root, s, i), 2, fuel, R.Num(v), LoopStore(root, v, i))
  {
    var st := LoopStore(root, s, i);
    DefineRule("sum", SumValue(), st, 2, fuel - 1, R.Num(v), st);
    assert LoopVars(s, i)["sum" := R.Num(v)] == LoopVars(v, i);
    assert R.Bind(st.frames, 2, "sum", R.Num(v)) == LoopStore(root, v, i).frames;
  }

  /** `define(i, …)` in the call's frame replaces that one binding. */
  lemma {:induction false} DefineIndex(root: R.Frame, s: int, i: int, v: int, fuel: nat)
    requires fuel >= 1
    requires Yields(Inc(), LoopStore(root, s, i), 2, fuel - 1, R.Num(v), LoopStore(root, s, i))
    ensures Yields(AddI(), LoopStore(root, s, i), 2, fuel, R.Num(v), LoopStore(root, s, v))
  {
    var st := LoopStore(root, s, i);
    DefineRule("i", Inc(), st, 2, fuel - 1, R.Num(v), st);
    assert LoopVars(s, i)["i" := R.Num(v)] == LoopVars(s, v);
    assert R.Bind(st.frames, 2, "i", R.Num(v)) == LoopStore(root, s, v).frames;
  }

  lemma {:induction false} AddSumStep(root: R.Frame, s: int, i: nat, fuel: nat)
    requires ArrayRoot(root) && i < 3 && fuel >= 4
    ensures Yields(AddSum(), LoopStore(root, s, i), 2, fuel, R.Num(s + i + 1), LoopStore(root, s + i + 1, i))
  {
    var st := LoopStore(root, s, i);
    var v := s + i + 1;
    LoopStoreSum(root, s, i);
    ElementAt(st, i, fuel - 1 - 1);
    SumPlus(st, s, i + 1, v, fuel - 1);
    DefineSum(root, s, i, v, fuel);
  }

  /** `+(i, 1)` in the call's frame. */
  lemma {:induction false} IncAt(root: R.Frame, s: int, i: int, v: int, fuel: nat)
    requires ArrayRoot(root) && fuel >= 2 && v == i + 1
    ensures Yields(Inc(), LoopStore(root, s, i), 2, fuel, R.Num(v), LoopStore(root, s, i))
  {
    LoopStoreIndex(root, s, i);
    IPlusOne(LoopStore(root, s, i), i, v, fuel);
  }

  lemma {:induction false} AddIStep(root: R.Frame, s: int, i: int, fuel: nat)
    requires ArrayRoot(root) && fuel >= 3
    ensures Yields(AddI(), LoopStore(root, s, i), 2, fuel, R.Num(i + 1), LoopStore(root, s, i + 1))
  {
    var v := i + 1;
    IncAt(root, s, i, v, fuel - 1);
    DefineIndex(root, s, i, v, fuel);
  }

  /** `do(a, b)` in the call's frame yields what b yields after a. */
  lemma {:induction false} LoopBodyDo(root: R.Frame, s: int, i: int, t: int, fuel: nat)
    requires ArrayRoot(root) && fuel >= 1
    requires Yields(AddSum(), LoopStore(root, s, i), 2, fuel - 1, R.Num(t), LoopStore(root, t, i))
    requires Yields(AddI(), LoopStore(root, t, i), 2, fuel - 1, R.Num(i + 1), LoopStore(root, t, i + 1))
    ensures Yields(LoopBody(), LoopStore(root, s, i), 2, fuel, R.Num(i + 1), LoopStore(root, t, i + 1))
  {
    LoopStoreOk(root, t, i + 1);
    var args := [AddSum(), AddI()];
    var r := Outcome(R.Ok(R.Num(i + 1)), LoopStore(root, t, i + 1));
    DoNilRule(args, R.Num(i + 1), LoopStore(root, t, i + 1), 2, fuel - 1);
    DoConsRule(args, 1, R.Num(t), LoopStore(root, t, i), 2, fuel - 1, R.Num(i + 1), LoopStore(root, t, i + 1), r);
    DoConsRule(args, 0, R.Bool(false), LoopStore(root, s, i), 2, fuel - 1, R.Num(t), LoopStore(root, t, i), r);
    DoRule(args, LoopStore(root, s, i), 2, fuel - 1, r);
  }

  /** One pass of the loop adds the i-th entry to sum and then increments i. */
  lemma {:induction false} LoopBodyStep(root: R.Frame, s: int, i: nat, fuel: nat)
    requires ArrayRoot(root) && i < 3 && fuel >= 5
    ensures Yields(LoopBody(), LoopStore(root, s, i), 2, fuel, R.Num(i + 1), LoopStore(root, s + i + 1, i + 1))
  {
    var t := s + i + 1;
    AddSumStep(root, s, i, fuel - 1);
    AddIStep(root, t, i, fuel - 1);
    LoopBodyDo(root, s, i, t, fuel);
  }

  /** The condition at sum s and index i. */
  lemma {:induction false} LoopCondition(root: R.Frame, s: int, i: int, fuel: nat)
    requires ArrayRoot(root) && fuel >= 3
    ensures Yields(Cond(), LoopStore(root, s, i), 2, fuel, R.Bool(i < 3), LoopStore(root, s, i))
  {
    LoopStoreLess(root, s, i);
    LoopCount(root, s, i, fuel - 1);
    CountCondition(LoopStore(root, s, i), i, fuel);
  }

  /** `length(array)` in the call's frame. */
  lemma {:induction false} LoopCount(root: R.Frame, s: int, i: int, fuel: nat)
    requires ArrayRoot(root) && fuel >= 2
    ensures Yields(Count(), LoopStore(root, s, i), 2, fuel, R.Num(3), LoopStore(root, s, i))
  {
    LoopStoreLength(root, s, i);
    LengthIsThree(LoopStore(root, s, i), fuel);
  }

  /** A pass of the loop while i is below the length 3; t and j are the
      new sum and index. */
  lemma {:induction false} LoopPass(root: R.Frame, s: int, i: nat, t: int, j: int, fuel: nat)
    requires ArrayRoot(root) && i < 3 && fuel >= 5 && t == s + i + 1 && j == i + 1
    ensures R.InScope(LoopStore(root, s, i), 2) && R.InScope(LoopStore(root, t, j), 2)
    ensures WhileLoop(Cond(), LoopBody(), LoopStore(root, s, i), 2, fuel) ==
              WhileLoop(Cond(), LoopBody(), LoopStore(root, t, j), 2, fuel - 1)
  {
    LoopStoreOk(root, t, j);
    LoopCondition(root, s, i, fuel);
    LoopBodyStep(root, s, i, fuel);
    WhileStepRule(Cond(), LoopBody(), LoopStore(root, s, i), 2, fuel, R.Bool(true), LoopStore(root, s, i),
                  R.Num(j), LoopStore(root, t, j));
  }

  /** With i equal to the length the loop stops. */
  lemma {:induction false} LoopStops(root: R.Frame, s: int, fuel: nat)
    requires ArrayRoot(root) && fuel >= 3
    ensures R.InScope(LoopStore(root, s, 3), 2)
    ensures WhileLoop(Cond(), LoopBody(), LoopStore(root, s, 3), 2, fuel) == Outcome(R.Ok(R.Bool(false)), LoopStore(root, s, 3))
  {
    LoopCondition(root, s, 3, fuel);
    WhileStopRule(Cond(), LoopBody(), LoopStore(root, s, 3), 2, fuel, LoopStore(root, s, 3));
  }

  /** The loop adds 1, 2 and 3 to sum and stops with i equal to 3. */
  lemma {:induction false} SumsEntries(root: R.Frame, fuel: nat)
    requires ArrayRoot(root) && fuel >= 8
    ensures R.InScope(LoopStore(root, 0, 0), 2)
    ensures WhileLoop(Cond(), LoopBody(), LoopStore(root, 0, 0), 2, fuel) == Outcome(R.Ok(R.Bool(false)), LoopStore(root, 6, 3))
  {
    var f1 := fuel - 1;
    var f2 := f1 - 1;
    var f3 := f2 - 1;
    LoopPass(root, 0, 0, 1, 1, fuel);
    LoopPass(root, 1, 1, 3, 2, f1);
    LoopPass(root, 3, 2, 6, 3, f2);
    LoopStops(root, 6, f3);
  }

  /** The while form runs that loop. */
  lemma {:induction false} LoopRuns(root: R.Frame, fuel: nat)
    requires ArrayRoot(root) && fuel >= 9
    ensures Yields(Loop(), LoopStore(root, 0, 0), 2, fuel, R.Bool(false), LoopStore(root, 6, 3))
  {
    SumsEntries(root, fuel - 1);
    WhileRule(Cond(), LoopBody(), LoopStore(root, 0, 0), 2, fuel - 1);
  }

  /** `define(i, 0)` in the call's frame. */
  lemma {:induction false} DefinesIndex(root: R.Frame, fuel: nat)
    requires ArrayRoot(root) && fuel >= 2
    ensures Yields(InitI(), CallFrameStore(root), 2, fuel, R.Num(0), AfterInitI(root))
  {
    CallFrameStoreOk(root);
    NumRule(0, CallFrameStore(root), 2, fuel - 1);
    DefineRule("i", N(0), CallFrameStore(root), 2, fuel - 1, R.Num(0), CallFrameStore(root));
    assert R.Bind(CallFrameStore(root).frames, 2, "i", R.Num(0)) == AfterInitI(root).frames;
  }

  /** `define(sum, 0)` in the call's frame. */
  lemma {:induction false} DefinesSum(root: R.Frame, fuel: nat)
    requires ArrayRoot(root) && fuel >= 2
    ensures Yields(InitSum(), AfterInitI(root), 2, fuel, R.Num(0), LoopStore(root, 0, 0))
  {
    AfterInitIOk(root);
    NumRule(0, AfterInitI(root), 2, fuel - 1);
    DefineRule("sum", N(0), AfterInitI(root), 2, fuel - 1, R.Num(0), AfterInitI(root));
    assert R.Bind(AfterInitI(root).frames, 2, "sum", R.Num(0)) == LoopStore(root, 0, 0).frames;
  }

  lemma {:induction false} SumYielded(root: R.Frame, fuel: nat)
    requires ArrayRoot(root) && fuel >= 1
    ensures Yields(W("sum"), LoopStore(root, 6, 3), 2, fuel, R.Num(6), LoopStore(root, 6, 3))
  {
    LoopStoreSum(root, 6, 3);
    WordRule("sum", LoopStore(root, 6, 3), 2, fuel, R.Num(6));
  }

  /** The last two steps of the body: the loop, then `sum`. */
  lemma {:induction false} BodyTail(root: R.Frame, fuel: nat)
    requires ArrayRoot(root)
    requires Yields(Loop(), LoopStore(root, 0, 0), 2, fuel, R.Bool(false), LoopStore(root, 6, 3))
    requires Yields(W("sum"), LoopStore(root, 6, 3), 2, fuel, R.Num(6), LoopStore(root, 6, 3))
    ensures DoLoop(BodyArgs(), 2, R.Num(0), LoopStore(root, 0, 0), 2, fuel) == Outcome(R.Ok(R.Num(6)), LoopStore(root, 6, 3))
  {
    var args := BodyArgs();
    var r := Outcome(R.Ok(R.Num(6)), LoopStore(root, 6, 3));
    DoNilRule(args, R.Num(6), LoopStore(root, 6, 3), 2, fuel);
    DoConsRule(args, 3, R.Bool(false), LoopStore(root, 6, 3), 2, fuel, R.Num(6), LoopStore(root, 6, 3), r);
    DoConsRule(args, 2, R.Num(0), LoopStore(root, 0, 0), 2, fuel, R.Bool(false), LoopStore(root, 6, 3), r);
  }

  /** The loop and then `sum`, from the state the two definitions leave. */
  lemma {:induction false} BodyRest(root: R.Frame, fuel: nat)
    requires ArrayRoot(root) && fuel >= 9
    ensures R.InScope(LoopStore(root, 0, 0), 2)
    ensures DoLoop(BodyArgs(), 2, R.Num(0), LoopStore(root, 0, 0), 2, fuel) == Outcome(R.Ok(R.Num(6)), LoopStore(root, 6, 3))
  {
    LoopRuns(root, fuel);
    SumYielded(root, fuel);
    BodyTail(root, fuel);
  }

  /** The body's `do` runs its four steps in order. */
  lemma {:induction false} BodyDo(root: R.Frame, fuel: nat)
    requires ArrayRoot(root) && fuel >= 1
    requires Yields(InitI(), CallFrameStore(root), 2, fuel - 1, R.Num(0), AfterInitI(root))
    requires Yields(InitSum(), AfterInitI(root), 2, fuel - 1, R.Num(0), LoopStore(root, 0, 0))
    requires DoLoop(BodyArgs(), 2, R.Num(0), LoopStore(root, 0, 0), 2, fuel - 1) == Outcome(R.Ok(R.Num(6)), LoopStore(root, 6, 3))
    ensures Yields(Body(), CallFrameStore(root), 2, fuel, R.Num(6), LoopStore(root, 6, 3))
  {
    var f := fuel - 1;
    var args := BodyArgs();
    var r := Outcome(R.Ok(R.Num(6)), LoopStore(root, 6, 3));
    DoConsRule(args, 1, R.Num(0), AfterInitI(root), 2, f, R.Num(0), LoopStore(root, 0, 0), r);
    DoConsRule(args, 0, R.Bool(false), CallFrameStore(root), 2, f, R.Num(0), AfterInitI(root), r);
    DoRule(args, CallFrameStore(root), 2, f, r);
  }

  /** The body of sumArray, run on the array of 1, 2 and 3, yields 6. */
  lemma {:induction false} BodyYieldsSix(root: R.Frame, fuel: nat)
    requires ArrayRoot(root) && fuel >= 10
    ensures Yields(Body(), CallFrameStore(root), 2, fuel, R.Num(6), LoopStore(root, 6, 3))
  {
    var f := fuel - 1;
    DefinesIndex(root, f);
    DefinesSum(root, f);
    BodyRest(root, f);
    BodyDo(root, fuel);
  }

  /** The arguments 1, 2 and 3 evaluate to themselves. */
  lemma {:induction false} ThreeNumbers(st: R.Store, sc: nat, fuel: nat)
    requires R.InScope(st, sc) && fuel >= 1
    ensures EvalArgs([N(1), N(2), N(3)], 0, [], st, sc, fuel) == Outcome(R.Ok(Elems()), st)
  {
    var args := [N(1), N(2), N(3)];
    NumRule(1, st, sc, fuel);
    NumRule(2, st, sc, fuel);
    NumRule(3, st, sc, fuel);
    var r := Outcome(R.Ok(Elems()), st);
    ArgsNilRule(args, Elems(), st, sc, fuel);
    assert [R.Num(1), R.Num(2)] + [R.Num(3)] == Elems();
    ArgsConsRule(args, 2, [R.Num(1), R.Num(2)], st, sc, fuel, R.Num(3), st, r);
    assert [R.Num(1)] + [R.Num(2)] == [R.Num(1), R.Num(2)];
    ArgsConsRule(args, 1, [R.Num(1)], st, sc, fuel, R.Num(2), st, r);
    assert [] + [R.Num(1)] == [R.Num(1)];
    ArgsConsRule(args, 0, [], st, sc, fuel, R.Num(1), st, r);
  }

  /** `array(1, 2, 3)`, where `array` is the builtin, is the array of 1, 2 and 3. */
  lemma {:induction false} ArrayOfThree(st: R.Store, fuel: nat)
    requires R.InScope(st, 1) && fuel >= 2
    requires R.Lookup(st.frames, 1, "array") == R.Some(R.Native(R.MakeArray))
    ensures Yields(OneTwoThree(), st, 1, fuel, R.Arr(Elems()), st)
  {
    var f := fuel - 1;
    WordRule("array", st, 1, f, R.Native(R.MakeArray));
    ThreeNumbers(st, 1, f);
    ApplyRule(W("array"), [N(1), N(2), N(3)], st, 1, f, R.Native(R.MakeArray), st, Elems(), st,
              Outcome(R.Ok(R.Arr(Elems())), st));
  }

  /** What the program's scope binds once sumArray is defined. */
  lemma {:induction false} AfterDefineBinds(root: R.Frame)
    requires ArrayRoot(root)
    ensures R.InScope(AfterDefine(root), 1)
    ensures R.Lookup(AfterDefine(root).frames, 1, "array") == R.Some(R.Native(R.MakeArray))
    ensures R.Lookup(AfterDefine(root).frames, 1, "print") == R.Some(R.Native(R.Print))
    ensures R.Lookup(AfterDefine(root).frames, 1, "sumArray") == R.Some(SumArray())
  {
    AfterDefineOk(root);
    assert "array" !in Globals().vars && "print" !in Globals().vars;
  }

  /** `fun(array, …)` in the program's scope is the closure sumArray. */
  lemma {:induction false} FunYields(root: R.Frame, fuel: nat)
    requires ArrayRoot(root) && fuel >= 1
    ensures Yields(FunExpr(), Start(root), 1, fuel, SumArray(), Start(root))
  {
    FunOfOne("array", Body(), Start(root), 1, fuel - 1);
  }

  /** `fun(x, b)`, over any body b, is the closure of b with parameter x. */
  lemma {:induction false} FunOfOne(x: string, b: Expr, st: R.Store, sc: nat, fuel: nat)
    requires R.InScope(st, sc)
    ensures Eval(Ap("fun", [W(x), b]), st, sc, fuel + 1) == Outcome(R.Ok(R.Closure([x], b, sc)), st)
  {
    var names := ParamNames([W(x)]);
    assert [W(x)][..0] == [];
    assert names.Some? && |names.value| == 1 && names.value[0] == x;
    assert names.value == [x];
    assert [W(x)] + [b] == [W(x), b];
    FunRule([W(x)], b, [x], st, sc, fuel);
  }

  /** `define(sumArray, fun(array, …))` binds the closure in the program's scope. */
  lemma {:induction false} SumArrayDefined(root: R.Frame, fuel: nat)
    requires ArrayRoot(root) && fuel >= 2
    ensures Yields(DefineSumArray(), Start(root), 1, fuel, SumArray(), AfterDefine(root))
  {
    var st := Start(root);
    FunYields(root, fuel - 1);
    DefineRule("sumArray", FunExpr(), st, 1, fuel - 1, SumArray(), st);
    assert R.Bind(st.frames, 1, "sumArray", SumArray()) == AfterDefine(root).frames;
  }

  /** The call binds its argument in a new frame below the program's scope. */
  lemma {:induction false} CallFrame(root: R.Frame)
    ensures R.PushFrame(AfterDefine(root), map["array" := R.Arr(Elems())], 1) == CallFrameStore(root)
  {}

  /** A call of sumArray runs its body in the call's frame. */
  lemma {:induction false} CallDo(root: R.Frame, fuel: nat)
    requires ArrayRoot(root) && fuel >= 1
    requires Yields(OneTwoThree(), AfterDefine(root), 1, fuel - 1, R.Arr(Elems()), AfterDefine(root))
    requires Yields(Body(), CallFrameStore(root), 2, fuel - 1, R.Num(6), LoopStore(root, 6, 3))
    ensures Yields(CallSum(), AfterDefine(root), 1, fuel, R.Num(6), LoopStore(root, 6, 3))
  {
    var st := AfterDefine(root);
    AfterDefineBinds(root);
    WordRule("sumArray", st, 1, fuel - 1, SumArray());
    CallFrame(root);
    CallOneRule(W("sumArray"), OneTwoThree(), "array", Body(), 1, st, 1, fuel - 1, st, R.Arr(Elems()), st,
                Outcome(R.Ok(R.Num(6)), LoopStore(root, 6, 3)));
  }

  /** `sumArray(array(1, 2, 3))` yields 6. */
  lemma {:induction false} SumArrayCalled(root: R.Frame, fuel: nat)
    requires ArrayRoot(root) && fuel >= 11
    ensures Yields(CallSum(), AfterDefine(root), 1, fuel, R.Num(6), LoopStore(root, 6, 3))
  {
    AfterDefineBinds(root);
    ArrayOfThree(AfterDefine(root), fuel - 1);
    BodyYieldsSix(root, fuel - 1);
    CallDo(root, fuel);
  }

  lemma {:induction false} SumArrayPrints(root: R.Frame, fuel: nat)
    requires ArrayRoot(root) && fuel >= 12
    ensures Yields(PrintSum(), AfterDefine(root), 1, fuel, R.Num(6), LoopStore(root, 6, 3).(output := [R.Num(6)]))
  {
    AfterDefineBinds(root);
    SumArrayCalled(root, fuel - 1);
    PrintRule(CallSum(), AfterDefine(root), 1, fuel - 1, R.Num(6), LoopStore(root, 6, 3));
  }

  /** The array sample program prints 6, the sum of the entries 1, 2 and 3. */
  lemma {:induction false} SumArrayProgram(root: R.Frame, fuel: nat)
    requires ArrayRoot(root) && fuel >= 13
    ensures var o := Eval(Program(), Start(root), 1, fuel);
            o.result == R.Ok(R.Num(6)) && o.store.output == [R.Num(6)]
  {
    var f := fuel - 1;
    SumArrayDefined(root, f);
    SumArrayPrints(root, f);
    var args := [DefineSumArray(), PrintSum()];
    var st := LoopStore(root, 6, 3).(output := [R.Num(6)]);
    var r := Outcome(R.Ok(R.Num(6)), st);
    DoNilRule(args, R.Num(6), st, 1, f);
    DoConsRule(args, 1, SumArray(), AfterDefine(root), 1, f, R.Num(6), st, r);
    DoConsRule(args, 0, R.Bool(false), Start(root), 1, f, SumArray(), AfterDefine(root), r);
    DoRule(args, Start(root), 1, f, r);
  }
}
