/** Run-time values and the store of scopes.

    Every scope is a frame of the store: a table of own bindings and the
    index of its parent frame. Frame 0 is the root scope holding the
    builtins; it is the only frame without a parent, and every other frame's
    parent has a smaller index, so walking outward always ends at the root.
    Closures refer to the frame they were created in by its index, which is
    how several closures share one scope and how `set` inside a function body
    reaches a binding of an enclosing scope. */
module Runtime {
  import Ast

  datatype Option<T> = None | Some(value: T)

  /** The builtins of the root scope that are functions. */
  datatype Builtin = Print | Add | Sub | Mul | Div | Eq | Ne | Lt | Gt | MakeArray | Length | Element

  datatype Value =
    | Bool(b: bool)
    | Num(n: int)
    | Str(s: string)
    | Arr(elems: seq<Value>)
    | Closure(params: seq<string>, body: Ast.Expr, scope: nat)
    | Native(op: Builtin)
    /** JavaScript's `undefined`: a missing argument, an array hole, an
        element read outside the array. */
    | Undefined

  /** The values the evaluator accepts as an operator: builtins and closures. */
  predicate IsFunction(v: Value) {
    v.Closure? || v.Native?
  }

  datatype Frame = Frame(vars: map<string, Value>, parent: Option<nat>)

  /** The scopes, and the values `print` has emitted so far. */
  datatype Store = Store(frames: seq<Frame>, output: seq<Value>)

  datatype Error =
    | SyntaxError(message: string)
    | TypeError(message: string)
    | ReferenceError(message: string)
    | RangeError(message: string)
    /** The evaluation needed more steps than it was given. */
    | OutOfFuel
    /** A JavaScript operator applied to operands outside the integer,
        string and boolean cases this model gives a meaning to. */
    | Unsupported(message: string)

  datatype Result<T> = Ok(value: T) | Err(error: Error)

  // ---------------------------------------------------------------------
  // Well-formed stores

  /** The closures inside v refer to frames 1 .. n - 1. */
  predicate ValueOk(v: Value, n: nat)
    decreases v
  {
    match v
    case Closure(_, _, scope) => 1 <= scope < n
    case Arr(xs) => forall i :: 0 <= i < |xs| ==> ValueOk(xs[i], n)
    case _ => true
  }

  predicate ValuesOk(vs: seq<Value>, n: nat) {
    forall i :: 0 <= i < |vs| ==> ValueOk(vs[i], n)
  }

  predicate FrameOk(f: Frame, n: nat) {
    forall x :: x in f.vars ==> ValueOk(f.vars[x], n)
  }

  predicate ParentOk(frames: seq<Frame>, i: nat)
    requires i < |frames|
  {
    frames[i].parent.Some? && frames[i].parent.value < i
  }

  /** Frame 0 is the root, every other frame has an older parent. */
  predicate Chained(frames: seq<Frame>) {
    && |frames| >= 1
    && frames[0].parent.None?
    && forall i :: 1 <= i < |frames| ==> ParentOk(frames, i)
  }

  predicate StoreOk(st: Store) {
    && Chained(st.frames)
    && forall i :: 0 <= i < |st.frames| ==> FrameOk(st.frames[i], |st.frames|)
  }

  /** sc names a scope of the store other than the root: the only scopes
      the evaluator ever runs in. */
  predicate InScope(st: Store, sc: nat) {
    StoreOk(st) && 1 <= sc < |st.frames|
  }

  lemma {:induction false} ValueOkGrows(v: Value, n: nat, m: nat)
    requires ValueOk(v, n) && n <= m
    ensures ValueOk(v, m)
    decreases v
  {
    match v
    case Arr(xs) =>
      forall i | 0 <= i < |xs|
        ensures ValueOk(xs[i], m)
      {
        ValueOkGrows(xs[i], n, m);
      }
    case _ =>
  }

  lemma ValuesOkGrows(vs: seq<Value>, n: nat, m: nat)
    requires ValuesOk(vs, n) && n <= m
    ensures ValuesOk(vs, m)
  {
    forall i | 0 <= i < |vs|
      ensures ValueOk(vs[i], m)
    {
      ValueOkGrows(vs[i], n, m);
    }
  }

  lemma FrameOkGrows(f: Frame, n: nat, m: nat)
    requires FrameOk(f, n) && n <= m
    ensures FrameOk(f, m)
  {
    forall x | x in f.vars
      ensures ValueOk(f.vars[x], m)
    {
      ValueOkGrows(f.vars[x], n, m);
    }
  }

  // ---------------------------------------------------------------------
  // Lookup of a name through the chain of scopes

  /** The value bound to x in the nearest frame of the chain from sc that
      owns it, root included. */
  function Lookup(frames: seq<Frame>, sc: nat, x: string): (r: Option<Value>)
    requires Chained(frames) && sc < |frames|
    ensures x in frames[sc].vars ==> r == Some(frames[sc].vars[x])
    ensures sc == 0 && x !in frames[0].vars ==> r.None?
    decreases sc
  {
    if x in frames[sc].vars then Some(frames[sc].vars[x])
    else match frames[sc].parent
      case None => None
      case Some(p) =>
        assert ParentOk(frames, sc);
        Lookup(frames, p, x)
  }

  /** A looked-up value is as well formed as the store it comes from. */
  lemma {:induction false} LookupOk(st: Store, sc: nat, x: string)
    requires StoreOk(st) && sc < |st.frames|
    ensures Lookup(st.frames, sc, x).Some? ==> ValueOk(Lookup(st.frames, sc, x).value, |st.frames|)
    decreases sc
  {
    if x !in st.frames[sc].vars && sc > 0 {
      assert ParentOk(st.frames, sc);
      LookupOk(st, st.frames[sc].parent.value, x);
    }
  }

  /** The frames reachable from sc by following parents, sc itself included. */
  predicate OnChain(frames: seq<Frame>, sc: nat, t: nat)
    requires Chained(frames) && sc < |frames|
    decreases sc
  {
    t == sc || (sc > 0 && ParentOk(frames, sc) && OnChain(frames, frames[sc].parent.value, t))
  }

  lemma {:induction false} OnChainBelow(frames: seq<Frame>, sc: nat, t: nat)
    requires Chained(frames) && sc < |frames|
    ensures OnChain(frames, sc, t) ==> t <= sc
    decreases sc
  {
    if sc > 0 {
      assert ParentOk(frames, sc);
      OnChainBelow(frames, frames[sc].parent.value, t);
    }
  }

  // ---------------------------------------------------------------------
  // Writing a binding into one scope

  /** Binds x to v in frame t only. */
  function Bind(frames: seq<Frame>, t: nat, x: string, v: Value): (r: seq<Frame>)
    requires t < |frames|
    ensures |r| == |frames| && r[t].vars == frames[t].vars[x := v]
    ensures forall i :: 0 <= i < |r| ==> r[i].parent == frames[i].parent
    ensures forall i :: 0 <= i < |r| && i != t ==> r[i] == frames[i]
  {
    frames[t := Frame(frames[t].vars[x := v], frames[t].parent)]
  }

  lemma BindOk(st: Store, t: nat, x: string, v: Value)
    requires StoreOk(st) && t < |st.frames| && ValueOk(v, |st.frames|)
    ensures StoreOk(st.(frames := Bind(st.frames, t, x, v)))
  {
    var fs := Bind(st.frames, t, x, v);
    assert Chained(fs) by {
      forall i | 1 <= i < |fs|
        ensures ParentOk(fs, i)
      {
        assert ParentOk(st.frames, i);
      }
    }
    forall i | 0 <= i < |fs|
      ensures FrameOk(fs[i], |fs|)
    {
      assert FrameOk(st.frames[i], |st.frames|);
    }
  }

  /** After binding x in frame t, x is found there from t, and no other name
      and no frame older than t sees any difference. */
  lemma {:induction false} LookupAfterBind(frames: seq<Frame>, t: nat, x: string, v: Value, sc: nat, y: string)
    requires Chained(frames) && t < |frames| && sc < |frames|
    ensures Chained(Bind(frames, t, x, v))
    ensures sc == t && y == x ==> Lookup(Bind(frames, t, x, v), sc, y) == Some(v)
    ensures y != x || sc < t ==> Lookup(Bind(frames, t, x, v), sc, y) == Lookup(frames, sc, y)
    decreases sc
  {
    var fs := Bind(frames, t, x, v);
    assert Chained(fs) by {
      forall i | 1 <= i < |fs|
        ensures ParentOk(fs, i)
      {
        assert ParentOk(frames, i);
      }
    }
    if sc > 0 && y !in fs[sc].vars {
      assert ParentOk(frames, sc);
      LookupAfterBind(frames, t, x, v, frames[sc].parent.value, y);
    }
  }

  // ---------------------------------------------------------------------
  // The search of `set`

  /** The frame `set` writes: walking outward from sc, the first frame that
      owns x, where a frame is only examined while it has a parent, so the
      root is never chosen. */
  function SetTarget(frames: seq<Frame>, sc: nat, x: string): (r: Option<nat>)
    requires Chained(frames) && sc < |frames|
    ensures r.Some? ==> 1 <= r.value <= sc && x in frames[r.value].vars
    decreases sc
  {
    match frames[sc].parent
    case None => None
    case Some(p) =>
      if x in frames[sc].vars then Some(sc)
      else
        assert ParentOk(frames, sc);
        SetTarget(frames, p, x)
  }

  /** The frame `set` writes is on the chain, and holds the very binding that
      looking x up from sc finds: `set` overwrites what a read would see. */
  lemma {:induction false} SetTargetIsLookup(frames: seq<Frame>, sc: nat, x: string)
    requires Chained(frames) && sc < |frames|
    ensures SetTarget(frames, sc, x).Some? ==>
              && OnChain(frames, sc, SetTarget(frames, sc, x).value)
              && Lookup(frames, sc, x) == Some(frames[SetTarget(frames, sc, x).value].vars[x])
    decreases sc
  {
    if sc > 0 && x !in frames[sc].vars {
      assert ParentOk(frames, sc);
      SetTargetIsLookup(frames, frames[sc].parent.value, x);
    }
  }

  /** `set` finds no frame exactly when no non-root frame of the chain owns
      the name; looking it up then finds the root's binding, if any. */
  lemma {:induction false} SetTargetNone(frames: seq<Frame>, sc: nat, x: string)
    requires Chained(frames) && sc < |frames|
    ensures SetTarget(frames, sc, x).None? <==>
              forall t :: 1 <= t <= sc && OnChain(frames, sc, t) ==> x !in frames[t].vars
    ensures SetTarget(frames, sc, x).None? ==> Lookup(frames, sc, x) == Lookup(frames, 0, x)
    decreases sc
  {
    if sc > 0 {
      assert ParentOk(frames, sc);
      var p := frames[sc].parent.value;
      SetTargetNone(frames, p, x);
      forall t | 1 <= t <= sc && OnChain(frames, sc, t) && t != sc
        ensures OnChain(frames, p, t) && t <= p
      {
        OnChainBelow(frames, p, t);
      }
    }
  }

  /** After `set` writes its frame, looking the name up from where `set` ran
      finds the new value: no frame in between owns the name. */
  lemma {:induction false} SetTargetBind(frames: seq<Frame>, sc: nat, x: string, v: Value)
    requires Chained(frames) && sc < |frames| && SetTarget(frames, sc, x).Some?
    ensures Chained(Bind(frames, SetTarget(frames, sc, x).value, x, v))
    ensures Lookup(Bind(frames, SetTarget(frames, sc, x).value, x, v), sc, x) == Some(v)
    decreases sc
  {
    var t := SetTarget(frames, sc, x).value;
    LookupAfterBind(frames, t, x, v, sc, x);
    if x !in frames[sc].vars {
      assert ParentOk(frames, sc);
      SetTargetBind(frames, frames[sc].parent.value, x, v);
    }
  }

  // ---------------------------------------------------------------------
  // Calls: a fresh frame whose parent is the closure's scope

  /** The bindings of a call frame: each parameter, in order, gets the
      argument at its position, so a repeated name keeps its last argument. */
  function BindParams(params: seq<string>, vals: seq<Value>): (m: map<string, Value>)
    requires |params| == |vals|
    ensures forall x :: x in m <==> x in params
    decreases |params|
  {
    if params == [] then map[]
    else
      var n := |params| - 1;
      BindParams(params[..n], vals[..n])[params[n] := vals[n]]
  }

  /** Parameters are bound positionally; the last occurrence of a repeated
      name wins. */
  lemma {:induction false} BindParamsPositional(params: seq<string>, vals: seq<Value>, i: nat)
    requires |params| == |vals| && i < |params|
    requires forall j :: i < j < |params| ==> params[j] != params[i]
    ensures BindParams(params, vals)[params[i]] == vals[i]
    decreases |params|
  {
    var n := |params| - 1;
    if i < n {
      BindParamsPositional(params[..n], vals[..n], i);
    }
  }

  lemma BindParamsOk(params: seq<string>, vals: seq<Value>, n: nat)
    requires |params| == |vals| && ValuesOk(vals, n)
    ensures FrameOk(Frame(BindParams(params, vals), None), n)
    decreases |params|
  {
    if params != [] {
      var k := |params| - 1;
      BindParamsOk(params[..k], vals[..k], n);
    }
  }

  /** The store after a call frame with bindings b and parent s is pushed. */
  function PushFrame(st: Store, b: map<string, Value>, s: nat): (r: Store)
    ensures r.frames == st.frames + [Frame(b, Some(s))] && r.output == st.output
  {
    st.(frames := st.frames + [Frame(b, Some(s))])
  }

  lemma PushFrameOk(st: Store, b: map<string, Value>, s: nat)
    requires StoreOk(st) && s < |st.frames| && FrameOk(Frame(b, None), |st.frames|)
    ensures StoreOk(PushFrame(st, b, s))
  {
    var fs := PushFrame(st, b, s).frames;
    assert Chained(fs) by {
      forall i | 1 <= i < |fs|
        ensures ParentOk(fs, i)
      {
        if i < |st.frames| {
          assert ParentOk(st.frames, i);
        }
      }
    }
    forall i | 0 <= i < |fs|
      ensures FrameOk(fs[i], |fs|)
    {
      if i < |st.frames| {
        FrameOkGrows(st.frames[i], |st.frames|, |fs|);
      } else {
        FrameOkGrows(Frame(b, None), |st.frames|, |fs|);
      }
    }
  }

  /** Lexical scope: from a fresh call frame, a name is found among the
      parameters or else exactly as it is found from the closure's scope,
      whatever frame the call was made from. */
  lemma PushedLookup(frames: seq<Frame>, b: map<string, Value>, s: nat, x: string)
    requires Chained(frames) && s < |frames|
    ensures Chained(frames + [Frame(b, Some(s))])
    ensures Lookup(frames + [Frame(b, Some(s))], |frames|, x) ==
              if x in b then Some(b[x]) else Lookup(frames, s, x)
  {
    var fs := frames + [Frame(b, Some(s))];
    assert Chained(fs) by {
      forall i | 1 <= i < |fs|
        ensures ParentOk(fs, i)
      {
        if i < |frames| {
          assert ParentOk(frames, i);
        }
      }
    }
    if x !in b {
      AppendedLookup(frames, Frame(b, Some(s)), s, x);
    }
  }

  /** A frame added to the store is invisible from the frames already there. */
  lemma {:induction false} AppendedLookup(frames: seq<Frame>, f: Frame, sc: nat, x: string)
    requires Chained(frames) && sc < |frames|
    requires f.parent.Some? && f.parent.value < |frames|
    ensures Chained(frames + [f])
    ensures Lookup(frames + [f], sc, x) == Lookup(frames, sc, x)
    decreases sc
  {
    var fs := frames + [f];
    assert Chained(fs) by {
      forall i | 1 <= i < |fs|
        ensures ParentOk(fs, i)
      {
        if i < |frames| {
          assert ParentOk(frames, i);
        }
      }
    }
    assert fs[sc] == frames[sc];
    if x !in frames[sc].vars && sc > 0 {
      assert ParentOk(frames, sc);
      AppendedLookup(frames, f, frames[sc].parent.value, x);
    }
  }
}
