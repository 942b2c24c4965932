/** The root scope and its builtin functions. */
module Builtins {
  import opened Runtime

  /** The bindings the root scope is created with. */
  function TopBindings(): map<string, Value> {
    map[
      "true" := Bool(true), "false" := Bool(false), "print" := Native(Print),
      "+" := Native(Add), "-" := Native(Sub), "*" := Native(Mul), "/" := Native(Div),
      "==" := Native(Eq), "!=" := Native(Ne), "<" := Native(Lt), ">" := Native(Gt),
      "array" := Native(MakeArray), "length" := Native(Length), "element" := Native(Element)
    ]
  }

  /** The root scope: the builtins, and no parent. */
  function TopFrame(): (f: Frame)
    ensures f.parent.None? && FrameOk(f, 0)
  {
    Frame(TopBindings(), None)
  }

  /** A JavaScript call: a missing argument is `undefined`, extra ones are
      ignored. */
  function Arg(vals: seq<Value>, i: nat): Value {
    if i < |vals| then vals[i] else Undefined
  }

  /** The array builtin as written, which spreads its arguments into
      JavaScript's Array constructor: a single number argument is taken as a
      length and gives that many holes, or a RangeError when it is not a
      valid length; any other arguments become the elements. */
  function ArrayAsWritten(vals: seq<Value>): (r: Result<Value>)
    ensures !(|vals| == 1 && vals[0].Num?) ==> r == Ok(Arr(vals))
    ensures |vals| == 1 && vals[0].Num? && 0 <= vals[0].n < 0x1_0000_0000 ==>
              r.Ok? && r.value.Arr? && |r.value.elems| == vals[0].n
              && forall i :: 0 <= i < |r.value.elems| ==> r.value.elems[i] == Undefined
    ensures |vals| == 1 && vals[0].Num? && !(0 <= vals[0].n < 0x1_0000_0000) ==>
              r == Err(RangeError("Invalid array length"))
  {
    if |vals| == 1 && vals[0].Num? then
      var n := vals[0].n;
      if 0 <= n < 0x1_0000_0000 then Ok(Arr(seq(n, _ => Undefined)))
      else Err(RangeError("Invalid array length"))
    else Ok(Arr(vals))
  }

  /** `array(3)` builds three holes instead of the one-element array [3]. */
  lemma ArraySingleNumber()
    ensures ArrayAsWritten([Num(3)]) == Ok(Arr([Undefined, Undefined, Undefined]))
    ensures ArrayAsWritten([Num(3)]) != Ok(Arr([Num(3)]))
    ensures ArrayAsWritten([Num(-1)]).Err?
  {
    assert seq(3, _ => Undefined) == [Undefined, Undefined, Undefined];
  }

  /** The variadic array constructor the language intends: its arguments, in
      order, whatever they are. */
  function MakeArrayOf(vals: seq<Value>): (r: Value)
    ensures r.Arr? && r.elems == vals
  {
    Arr(vals)
  }

  /** The builtin as written and the intended one agree on every argument
      list except a single number, where only the intended one holds it. */
  lemma ArrayCorrected(vals: seq<Value>)
    ensures !(|vals| == 1 && vals[0].Num?) ==> ArrayAsWritten(vals) == Ok(MakeArrayOf(vals))
    ensures |vals| == 1 && vals[0].Num? ==> ArrayAsWritten(vals) != Ok(MakeArrayOf(vals))
  {
    if |vals| == 1 && vals[0].Num? && 0 <= vals[0].n < 0x1_0000_0000 {
      if vals[0].n == 1 {
        assert ArrayAsWritten(vals).value.elems[0] == Undefined;
      } else {
        assert |ArrayAsWritten(vals).value.elems| != |vals|;
      }
    }
  }

  /** The integer operators; operands of other kinds (string concatenation,
      coercions, fractions) are not given a meaning. */
  function Arith(op: Builtin, a: Value, b: Value): (r: Result<Value>)
    requires op in {Add, Sub, Mul, Lt, Gt}
    ensures a.Num? && b.Num? <==> r.Ok?
    ensures r.Ok? ==> r.value == match op
              case Add => Num(a.n + b.n)
              case Sub => Num(a.n - b.n)
              case Mul => Num(a.n * b.n)
              case Lt => Bool(a.n < b.n)
              case Gt => Bool(a.n > b.n)
  {
    if a.Num? && b.Num? then
      Ok(match op
        case Add => Num(a.n + b.n)
        case Sub => Num(a.n - b.n)
        case Mul => Num(a.n * b.n)
        case Lt => Bool(a.n < b.n)
        case Gt => Bool(a.n > b.n))
    else Err(Unsupported("operands of " + OpName(op) + " are not two numbers"))
  }

  function OpName(op: Builtin): string {
    match op
    case Print => "print"
    case Add => "+"
    case Sub => "-"
    case Mul => "*"
    case Div => "/"
    case Eq => "=="
    case Ne => "!="
    case Lt => "<"
    case Gt => ">"
    case MakeArray => "array"
    case Length => "length"
    case Element => "element"
  }

  /** Operands on which JavaScript's `==` is plain equality: two numbers, two
      strings, two booleans, or two `undefined`. */
  predicate SameKindPrimitive(a: Value, b: Value) {
    (a.Num? && b.Num?) || (a.Str? && b.Str?) || (a.Bool? && b.Bool?) || (a.Undefined? && b.Undefined?)
  }

  /** `==` and `!=`. */
  function Equality(negate: bool, a: Value, b: Value): (r: Result<Value>)
    ensures SameKindPrimitive(a, b) <==> r.Ok?
    ensures r.Ok? ==> r.value == Bool((a == b) != negate)
  {
    if SameKindPrimitive(a, b) then Ok(Bool((a == b) != negate))
    else Err(Unsupported("loose equality between values of different kinds or objects"))
  }

  /** `length(array)`. */
  function LengthOf(a: Value): (r: Result<Value>)
    ensures a.Arr? <==> r.Ok?
    ensures r.Ok? ==> r.value == Num(|a.elems|)
    ensures !a.Arr? ==> r == Err(TypeError("Applying length to non-array"))
  {
    if !a.Arr? then Err(TypeError("Applying length to non-array"))
    else Ok(Num(|a.elems|))
  }

  /** `element(array, n)`, an index into the array: the n-th element, `undefined`
      outside the array or for a missing index. An index of any other kind
      (a string naming a property, say) is not given a meaning. */
  function ElementOf(a: Value, n: Value): (r: Result<Value>)
    ensures !a.Arr? ==> r == Err(TypeError("Applying element to non-array"))
    ensures a.Arr? && n.Num? && 0 <= n.n < |a.elems| ==> r == Ok(a.elems[n.n])
    ensures a.Arr? && ((n.Num? && !(0 <= n.n < |a.elems|)) || n.Undefined?) ==> r == Ok(Undefined)
  {
    if !a.Arr? then Err(TypeError("Applying element to non-array"))
    else match n
      case Num(k) => if 0 <= k < |a.elems| then Ok(a.elems[k]) else Ok(Undefined)
      case Undefined => Ok(Undefined)
      case _ => Err(Unsupported("array index is not a number"))
  }

  /** The result of calling a builtin with the argument values vals; `print`
      also writes to the output, which the caller does. */
  function ApplyBuiltin(op: Builtin, vals: seq<Value>): (r: Result<Value>)
  {
    match op
    case Print => Ok(Arg(vals, 0))
    case Div => Err(Unsupported("/ yields fractions"))
    case Eq => Equality(false, Arg(vals, 0), Arg(vals, 1))
    case Ne => Equality(true, Arg(vals, 0), Arg(vals, 1))
    case MakeArray => ArrayAsWritten(vals)
    case Length => LengthOf(Arg(vals, 0))
    case Element => ElementOf(Arg(vals, 0), Arg(vals, 1))
    case _ => Arith(op, Arg(vals, 0), Arg(vals, 1))
  }

  /** What calling each builtin gives; a missing argument is `undefined`. */
  lemma ApplyBuiltinCases(op: Builtin, vals: seq<Value>)
    ensures op == Print ==> ApplyBuiltin(op, vals) == Ok(Arg(vals, 0))
    ensures op == Div ==> ApplyBuiltin(op, vals).Err? && ApplyBuiltin(op, vals).error.Unsupported?
    ensures op in {Add, Sub, Mul, Lt, Gt} ==> ApplyBuiltin(op, vals) == Arith(op, Arg(vals, 0), Arg(vals, 1))
    ensures op == Eq ==> ApplyBuiltin(op, vals) == Equality(false, Arg(vals, 0), Arg(vals, 1))
    ensures op == Ne ==> ApplyBuiltin(op, vals) == Equality(true, Arg(vals, 0), Arg(vals, 1))
    ensures op == MakeArray ==> ApplyBuiltin(op, vals) == ArrayAsWritten(vals)
    ensures op == Length ==> ApplyBuiltin(op, vals) == LengthOf(Arg(vals, 0))
    ensures op == Element ==> ApplyBuiltin(op, vals) == ElementOf(Arg(vals, 0), Arg(vals, 1))
  {}

  /** A builtin returns nothing that refers to frames its arguments do not. */
  lemma ApplyBuiltinOk(op: Builtin, vals: seq<Value>, n: nat)
    requires ValuesOk(vals, n)
    ensures ApplyBuiltin(op, vals).Ok? ==> ValueOk(ApplyBuiltin(op, vals).value, n)
  {
    if op == Element && |vals| > 0 && vals[0].Arr? {
      assert ValueOk(vals[0], n);
    }
  }

  /** The integer operators as builtins: `-` undoes `+`, `*` and `+`
      commute, and `<` is `>` with its operands swapped. */
  lemma ArithmeticLaws(a: int, b: int)
    ensures ApplyBuiltin(Sub, [ApplyBuiltin(Add, [Num(a), Num(b)]).value, Num(b)]) == Ok(Num(a))
    ensures ApplyBuiltin(Add, [Num(a), Num(b)]) == ApplyBuiltin(Add, [Num(b), Num(a)])
    ensures ApplyBuiltin(Mul, [Num(a), Num(b)]) == ApplyBuiltin(Mul, [Num(b), Num(a)])
    ensures ApplyBuiltin(Lt, [Num(a), Num(b)]) == ApplyBuiltin(Gt, [Num(b), Num(a)])
  {}

  /** `!=` is defined exactly where `==` is and answers the opposite; a value
      equals itself exactly when it is a primitive. */
  lemma EqualityLaws(v: Value, w: Value)
    ensures ApplyBuiltin(Eq, [v, w]).Ok? <==> ApplyBuiltin(Ne, [v, w]).Ok?
    ensures ApplyBuiltin(Eq, [v, w]).Ok? ==>
              ApplyBuiltin(Eq, [v, w]).value == Bool(!ApplyBuiltin(Ne, [v, w]).value.b)
    ensures ApplyBuiltin(Eq, [v, v]) == Ok(Bool(true)) <==> SameKindPrimitive(v, v)
  {}

  /** An array built by `array` from anything but a single number has one
      element per argument, each read back by `element` at its position;
      `array(n)` for a valid length n has length n and reads `undefined`
      everywhere, and for any other number it is a RangeError. */
  lemma ArrayLengthElement(vals: seq<Value>, i: nat)
    ensures !(|vals| == 1 && vals[0].Num?) ==>
              && ApplyBuiltin(Length, [ApplyBuiltin(MakeArray, vals).value]) == Ok(Num(|vals|))
              && (i < |vals| ==> ApplyBuiltin(Element, [ApplyBuiltin(MakeArray, vals).value, Num(i)]) == Ok(vals[i]))
    ensures |vals| == 1 && vals[0].Num? && 0 <= vals[0].n < 0x1_0000_0000 ==>
              && ApplyBuiltin(Length, [ApplyBuiltin(MakeArray, vals).value]) == Ok(vals[0])
              && ApplyBuiltin(Element, [ApplyBuiltin(MakeArray, vals).value, Num(i)]) == Ok(Undefined)
    ensures |vals| == 1 && vals[0].Num? && !(0 <= vals[0].n < 0x1_0000_0000) ==>
              ApplyBuiltin(MakeArray, vals) == Err(RangeError("Invalid array length"))
  {}
}
