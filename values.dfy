/**
 * Runtime values (values.hpp, values.cpp): six kinds behind one variant.
 * `Value` is the variant, held by value; the three kinds whose payload has a
 * setter are also classes whose `SetValue` overwrites the payload in place.
 */
module Values {
  import opened Wrappers
  import opened Tags
  import opened Syntax

  /** The C++ `int` payload of an exact number. */
  newtype int32 = x: int | -0x8000_0000 <= x < 0x8000_0000

  /** The `std::variant<Null, Boolean, ExactNumber, RealNumber, String, Lambda>` of a `Value`. */
  datatype Value =
    | NullValue
    | BooleanValue(b: bool)
    | ExactValue(i: int32)
    | RealValue(f: real)
    | StringValue(s: string)
    | LambdaValue(params: seq<string>, body: Option<Expr>)

  /** Each kind's own `type()`: the tag names the kind, and no kind reports `unknown` or `listy`. */
  function KindType(v: Value): (t: BasicTypeTag)
    ensures t != UnknownType && t != ListyType
    ensures (t == NullType <==> v.NullValue?) && (t == BooleanType <==> v.BooleanValue?)
    ensures (t == NumberExactType <==> v.ExactValue?) && (t == NumberRealType <==> v.RealValue?)
    ensures (t == StringType <==> v.StringValue?) && (t == CallableType <==> v.LambdaValue?)
  {
    match v
    case NullValue => NullType
    case BooleanValue(_) => BooleanType
    case ExactValue(_) => NumberExactType
    case RealValue(_) => NumberRealType
    case StringValue(_) => StringType
    case LambdaValue(_, _) => CallableType
  }

  /** Each kind's own `as_truthy()`: only null, false and the zero payloads are falsy. */
  function KindTruthy(v: Value): (b: bool)
    ensures b <==> !(v.NullValue? || v == BooleanValue(false) || v == ExactValue(0) || v == RealValue(0.0) || v == StringValue(""))
  {
    match v
    case NullValue => false
    case BooleanValue(b) => b
    case ExactValue(i) => i != 0
    case RealValue(f) => f != 0.0
    case StringValue(s) => |s| > 0
    case LambdaValue(_, _) => true
  }

  /** Each kind's own `is_constant()`: the payload-free and the immutable kinds are constant, the numbers and strings are not. */
  function KindConstant(v: Value): (r: bool)
    ensures r <==> KindType(v) in {NullType, BooleanType, CallableType}
  {
    match v
    case NullValue => true
    case BooleanValue(_) => true
    case ExactValue(_) => false
    case RealValue(_) => false
    case StringValue(_) => false
    case LambdaValue(_, _) => true
  }

  /** A constant value is truthy unless it is null or false. */
  lemma ConstantTruthiness(v: Value)
    requires KindConstant(v)
    ensures KindTruthy(v) <==> !(v.NullValue? || v == BooleanValue(false))
  {
  }

  /** A value that is not constant is falsy exactly when it is the zero of its kind. */
  lemma NonConstantFalsiness(v: Value)
    requires !KindConstant(v)
    ensures !KindTruthy(v) <==> v == ExactValue(0) || v == RealValue(0.0) || v == StringValue("")
  {
  }

  /** `std::variant::index()`: the position of the held kind in the variant's list. */
  function VariantIndex(v: Value): (n: nat)
    ensures TypeAtIndex(n) == KindType(v)
  {
    match v
    case NullValue => 0
    case BooleanValue(_) => 1
    case ExactValue(_) => 2
    case RealValue(_) => 3
    case StringValue(_) => 4
    case LambdaValue(_, _) => 5
  }

  /** The switch of `Value::type` on the variant index, with `unknown` as its fall-through. */
  function TypeAtIndex(n: nat): (t: BasicTypeTag)
    ensures t == UnknownType <==> n >= 6
  {
    if n == 0 then NullType
    else if n == 1 then BooleanType
    else if n == 2 then NumberExactType
    else if n == 3 then NumberRealType
    else if n == 4 then StringType
    else if n == 5 then CallableType
    else UnknownType
  }

  /** `Value::type`: it agrees with the held kind's own `type()`, so its `unknown` fall-through is never reached. */
  function ValueType(v: Value): (t: BasicTypeTag)
    ensures t == KindType(v) && t != UnknownType
  {
    TypeAtIndex(VariantIndex(v))
  }

  /**
   * `Value::operator bool` as written: the visitor stores the kind's
   * truthiness and then overwrites it with `false`, so every value converts to
   * false.
   */
  method OperatorBoolAsWritten(v: Value) returns (result: bool)
    ensures !result
  {
    result := false;
    result := KindTruthy(v);
    result := false;
  }

  /** `Value::operator bool` without the overwrite: false exactly for null, false and the zero payloads. */
  method OperatorBool(v: Value) returns (result: bool)
    ensures result <==> !(v.NullValue? || v == BooleanValue(false) || v == ExactValue(0) || v == RealValue(0.0) || v == StringValue(""))
  {
    result := false;
    result := KindTruthy(v);
  }

  /** `Value::is_constant` as written: the visitor's result is overwritten with `true`. */
  method IsConstantAsWritten(v: Value) returns (result: bool)
    ensures result
  {
    result := false;
    result := KindConstant(v);
    result := true;
  }

  /** `Value::is_constant` without the overwrite: true exactly for null, booleans and lambdas. */
  method IsConstant(v: Value) returns (result: bool)
    ensures result <==> (v.NullValue? || v.BooleanValue? || v.LambdaValue?)
  {
    result := false;
    result := KindConstant(v);
  }

  /** Values on which the as-written conversions give the wrong answer. */
  lemma AsWrittenConversionsDiffer()
    ensures KindTruthy(BooleanValue(true)) && KindTruthy(ExactValue(1)) && KindTruthy(StringValue("a"))
    ensures !KindConstant(ExactValue(0)) && !KindConstant(RealValue(1.5)) && !KindConstant(StringValue(""))
  {
  }

  /** An exact number: its payload is overwritten in place by `value(i)`. */
  class ExactNumber {
    var data: int32

    constructor (i: int32)
      ensures data == i
    {
      data := i;
    }

    function Value(): int32
      reads this
    {
      data
    }

    method SetValue(i: int32)
      modifies this
      ensures Value() == i
    {
      data := i;
    }

    /** The variant alternative a `Value` built from this object copies. */
    function AsValue(): (v: Value)
      reads this
      ensures v.ExactValue? && v.i == data && KindType(v) == NumberExactType
    {
      ExactValue(data)
    }
  }

  /** A real number; `float` is modelled by `real`, and only its comparison with 0.0 is used. */
  class RealNumber {
    var data: real

    constructor (f: real)
      ensures data == f
    {
      data := f;
    }

    function Value(): real
      reads this
    {
      data
    }

    method SetValue(f: real)
      modifies this
      ensures Value() == f
    {
      data := f;
    }

    function AsValue(): (v: Value)
      reads this
      ensures v.RealValue? && v.f == data && KindType(v) == NumberRealType
    {
      RealValue(data)
    }
  }

  class String {
    var data: string

    constructor (s: string)
      ensures data == s
    {
      data := s;
    }

    function Value(): string
      reads this
    {
      data
    }

    method SetValue(s: string)
      modifies this
      ensures Value() == s
    {
      data := s;
    }

    function AsValue(): (v: Value)
      reads this
      ensures v.StringValue? && v.s == data && KindType(v) == StringType
    {
      StringValue(data)
    }
  }

  /**
   * Setting a payload and reading it back gives what was set, for each of the
   * three settable kinds; the copy a `Value` made earlier is unaffected.
   */
  method SetterRoundTrip(i: int32, f: real, s: string) returns (i': int32, f': real, s': string, before: Value)
    ensures i' == i && f' == f && s' == s
    ensures before == ExactValue(0)
  {
    var e := new ExactNumber(0);
    before := e.AsValue();
    e.SetValue(i);
    i' := e.Value();
    var r := new RealNumber(0.0);
    r.SetValue(f);
    f' := r.Value();
    var t := new String("");
    t.SetValue(s);
    s' := t.Value();
  }
}
