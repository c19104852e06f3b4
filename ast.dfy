/** The syntax tree (ast.py): number leaves and binary operation nodes, and
    `get_value`, which evaluates a tree or raises. A child of an operation
    may be Python's `None`, which the parser produces after a syntax error. */
module Ast {
  import opened Wrappers

  /** Which subclass of `Operation` a node is. */
  datatype OpKind = Add | Subtract | Multiply | Divide | Unknown

  /** `Value(value)` or `<Kind>Operation(left, right)`. Numbers are exact reals. */
  datatype Expression =
    | Value(value: real)
    | Operation(kind: OpKind, left: Option<Expression>, right: Option<Expression>)

  /** What Python raises when `get_value` is called on a `None` child. */
  const NoneMessage: string := "'NoneType' object has no attribute 'get_value'"
  /** What `UnknownOperation.get_value` raises. */
  const UnknownMessage: string := "unknown operation"
  /** What Python raises for a float division by zero. */
  const ZeroDivisionMessage: string := "float division by zero"

  /** The messages `get_value` can raise. */
  predicate IsEvaluationError(m: string) {
    m == NoneMessage || m == UnknownMessage || m == ZeroDivisionMessage
  }

  /** The arithmetic each known operation stands for. */
  function Arith(k: OpKind, a: real, b: real): real
    requires k != Unknown
    requires k == Divide ==> b != 0.0
  {
    match k
    case Add => a + b
    case Subtract => a - b
    case Multiply => a * b
    case Divide => a / b
  }

  /** What a known operation node computes from its children's values:
      Python's float arithmetic, where only a division by zero raises. */
  function Apply(k: OpKind, a: real, b: real): (r: Result<real, string>)
    requires k != Unknown
    ensures r.Failure? <==> k == Divide && b == 0.0
    ensures r.Failure? ==> r.error == ZeroDivisionMessage
    ensures r.Success? ==> r.value == Arith(k, a, b)
  {
    match k
    case Add => Success(a + b)
    case Subtract => Success(a - b)
    case Multiply => Success(a * b)
    case Divide => if b == 0.0 then Failure(ZeroDivisionMessage) else Success(a / b)
  }

  /** `get_value`: a leaf gives its number; an unknown operation raises at
      once; a known operation evaluates its left child, then its right
      child, then applies its arithmetic; the first failure is the result. */
  function GetValue(e: Expression): (r: Result<real, string>)
    ensures r.Failure? ==> IsEvaluationError(r.error)
    decreases e, 1
  {
    match e
    case Value(v) => Success(v)
    case Operation(k, l, rt) =>
      if k == Unknown then Failure(UnknownMessage)
      else
        match ChildValue(l)
        case Failure(m) => Failure(m)
        case Success(a) =>
          match ChildValue(rt)
          case Failure(m) => Failure(m)
          case Success(b) => Apply(k, a, b)
  }

  /** `child.get_value()` on a child that may be `None`. */
  function ChildValue(c: Option<Expression>): (r: Result<real, string>)
    ensures r.Failure? ==> IsEvaluationError(r.error)
    decreases c, 0
  {
    match c
    case None => Failure(NoneMessage)
    case Some(e) => GetValue(e)
  }

  /** The trees that stand for a number: no unknown node, no missing child,
      no division by a child worth zero. */
  predicate Defined(e: Expression)
    decreases e, 0
  {
    match e
    case Value(_) => true
    case Operation(k, l, r) =>
      k != Unknown && l.Some? && r.Some? && Defined(l.value) && Defined(r.value) &&
      (k == Divide ==> Denote(r.value) != 0.0)
  }

  /** The number a defined tree stands for, by the usual rules of arithmetic. */
  function Denote(e: Expression): real
    requires Defined(e)
    decreases e, 1
  {
    match e
    case Value(v) => v
    case Operation(k, l, r) => Arith(k, Denote(l.value), Denote(r.value))
  }

  /** `get_value` succeeds exactly on the defined trees, and then gives the
      number the tree stands for. */
  lemma {:induction false} GetValueDenotes(e: Expression)
    ensures GetValue(e).Success? <==> Defined(e)
    ensures Defined(e) ==> GetValue(e) == Success(Denote(e))
  {
    match e
    case Value(_) =>
    case Operation(k, l, r) =>
      if k != Unknown && l.Some? {
        GetValueDenotes(l.value);
        if r.Some? {
          GetValueDenotes(r.value);
          if Defined(e) {
            var a, b := Denote(l.value), Denote(r.value);
            assert ChildValue(l) == Success(a) && ChildValue(r) == Success(b);
            assert GetValue(e) == Apply(k, a, b);
          }
        }
      }
  }

  /** A tree with an unknown node anywhere in it. */
  predicate HasUnknown(e: Expression) {
    match e
    case Value(_) => false
    case Operation(k, l, r) =>
      k == Unknown || (l.Some? && HasUnknown(l.value)) || (r.Some? && HasUnknown(r.value))
  }

  /** A tree holding an unknown node never evaluates: the parser's recovery
      nodes make every tree they are part of fail. */
  lemma {:induction false} UnknownFails(e: Expression)
    requires HasUnknown(e)
    ensures GetValue(e).Failure?
  {
    match e
    case Operation(k, l, r) =>
      if k != Unknown {
        if l.Some? && HasUnknown(l.value) {
          UnknownFails(l.value);
        } else {
          UnknownFails(r.value);
        }
      }
  }
}
