/**
  The two value worlds that the parameter registry reconciles: the store's
  dynamically typed values, and the statically typed values of declared
  parameters, which carry their runtime type as a tag.
 */
module Values {

  datatype Option<T> = None | Some(value: T)

  /** A value as the configuration store holds it (a subset of the XML-RPC values). */
  datatype DynValue =
    | Str(s: string)
    | Num(x: real)
    | Int(i: int)
    | Bool(b: bool)
    | Arr(elems: seq<DynValue>)

  /** The element of an in-memory vector: copied from the store as it is. */
  type Element = DynValue

  /** The value `std::vector<T>::resize` gives to new elements of a double vector. */
  const PAD: Element := Num(0.0)

  /** The parameter types that have a handler. */
  datatype Kind =
    | StringKind
    | DoubleKind
    | DoubleVectorKind
    | IntKind
    | BoolKind
    | ColumnVectorKind

  /**
    The value behind a parameter handle. Its constructor is the parameter's
    runtime type; OtherValue stands for every type without a handler.
   */
  datatype Value =
    | StringValue(s: string)
    | DoubleValue(x: real)
    | DoubleVectorValue(vec: seq<Element>)
    | IntValue(i: int)
    | BoolValue(b: bool)
    | ColumnVectorValue(vec: seq<Element>)
    | OtherValue(typeName: string)

  predicate IsArrayKind(k: Kind) {
    k == DoubleVectorKind || k == ColumnVectorKind
  }

  predicate IsScalar(v: Value) {
    v.StringValue? || v.DoubleValue? || v.IntValue? || v.BoolValue?
  }

  predicate IsVector(v: Value) {
    v.DoubleVectorValue? || v.ColumnVectorValue?
  }

  /** Type recovery: the handle's runtime type is exactly `k`, with no widening. */
  predicate IsOfType(v: Value, k: Kind) {
    match k
    case StringKind => v.StringValue?
    case DoubleKind => v.DoubleValue?
    case DoubleVectorKind => v.DoubleVectorValue?
    case IntKind => v.IntValue?
    case BoolKind => v.BoolValue?
    case ColumnVectorKind => v.ColumnVectorValue?
  }

  /** The handler type of a value, if it has one. */
  function TypeOf(v: Value): (r: Option<Kind>)
    ensures r.None? <==> v.OtherValue?
    ensures r.Some? ==> IsOfType(v, r.value)
  {
    match v
    case StringValue(_) => Some(StringKind)
    case DoubleValue(_) => Some(DoubleKind)
    case DoubleVectorValue(_) => Some(DoubleVectorKind)
    case IntValue(_) => Some(IntKind)
    case BoolValue(_) => Some(BoolKind)
    case ColumnVectorValue(_) => Some(ColumnVectorKind)
    case OtherValue(_) => None
  }

  /**
    The type test for `k` succeeds exactly when `k` is the value's runtime
    type; a vector kind is passed only by vectors and a scalar kind only by
    scalars.
   */
  lemma TypeTestIsRuntimeType(v: Value, k: Kind)
    ensures IsOfType(v, k) <==> TypeOf(v) == Some(k)
    ensures IsOfType(v, k) && IsArrayKind(k) ==> IsVector(v) && !IsScalar(v)
    ensures IsOfType(v, k) && !IsArrayKind(k) ==> IsScalar(v) && !IsVector(v)
  {
  }

  /** Both values have the same runtime type. */
  predicate SameType(a: Value, b: Value) {
    forall k :: IsOfType(a, k) <==> IsOfType(b, k)
  }

  /** The type description used in the unknown-type report. */
  function TypeName(v: Value): (r: string)
    ensures v.OtherValue? ==> r == v.typeName
    ensures !v.OtherValue? ==> |r| > 0
  {
    match v
    case StringValue(_) => "std::string"
    case DoubleValue(_) => "double"
    case DoubleVectorValue(_) => "std::vector<double>"
    case IntValue(_) => "int"
    case BoolValue(_) => "bool"
    case ColumnVectorValue(_) => "ColumnVector"
    case OtherValue(name) => name
  }

  /** Typed read of a store value (getParam into a scalar): only a value of exactly kind `k` is taken. */
  function Fetch(k: Kind, d: DynValue): (r: Option<Value>)
    requires !IsArrayKind(k)
    ensures r.Some? ==> IsOfType(r.value, k)
    ensures r.Some? <==> ((k == StringKind && d.Str?) || (k == DoubleKind && d.Num?)
                          || (k == IntKind && d.Int?) || (k == BoolKind && d.Bool?))
  {
    match d
    case Str(s) => if k == StringKind then Some(StringValue(s)) else None
    case Num(x) => if k == DoubleKind then Some(DoubleValue(x)) else None
    case Int(i) => if k == IntKind then Some(IntValue(i)) else None
    case Bool(b) => if k == BoolKind then Some(BoolValue(b)) else None
    case Arr(_) => None
  }

  /** Typed write of a scalar into the store (setParam). */
  function Encode(v: Value): (d: DynValue)
    requires IsScalar(v)
    ensures !d.Arr?
    ensures forall k :: IsOfType(v, k) ==> Fetch(k, d) == Some(v)
  {
    match v
    case StringValue(s) => Str(s)
    case DoubleValue(x) => Num(x)
    case IntValue(i) => Int(i)
    case BoolValue(b) => Bool(b)
  }

  /** What a typed read accepts is exactly what a typed write of the result stores. */
  lemma EncodeAfterFetch(k: Kind, d: DynValue)
    requires !IsArrayKind(k) && Fetch(k, d).Some?
    ensures IsScalar(Fetch(k, d).value) && Encode(Fetch(k, d).value) == d
  {
  }

  /** Type recovery succeeds for at most one handler type. */
  lemma TypeIsUnique(v: Value, k1: Kind, k2: Kind)
    requires IsOfType(v, k1) && IsOfType(v, k2)
    ensures k1 == k2
  {
  }

  /** Two values of handled types with the same type description have the same type. */
  lemma TypeNamesDistinct(a: Value, b: Value)
    requires !a.OtherValue? && !b.OtherValue? && TypeName(a) == TypeName(b)
    ensures SameType(a, b)
  {
  }

  /** `std::vector<T>::resize`: keeps the common prefix and pads with PAD. */
  function Resize(v: seq<Element>, n: nat): (r: seq<Element>)
    ensures |r| == n
    ensures forall i :: 0 <= i < n && i < |v| ==> r[i] == v[i]
    ensures forall i :: |v| <= i < n ==> r[i] == PAD
  {
    if n <= |v| then v[..n] else v + seq(n - |v|, _ => PAD)
  }
}
