/** The operation strategies of app/operations.py and the factory that maps
    operation names to them. Decimal values are modelled as exact reals. */
module Operations {
  import opened Exceptions
  import opened Text

  /** The ten operation classes of the module, plus any Operation subclass
      registered at run time (known here only by its class name). */
  datatype OpKind =
    | Addition
    | Subtraction
    | Multiplication
    | Division
    | Power
    | Root
    | Modulus
    | IntegerDivision
    | Percentage
    | AbsoluteDifference
    | UserDefined(className: string)
  {
    /** `str(operation)`: the class name. */
    function Name(): string {
      match this
      case Addition => "Addition"
      case Subtraction => "Subtraction"
      case Multiplication => "Multiplication"
      case Division => "Division"
      case Power => "Power"
      case Root => "Root"
      case Modulus => "Modulus"
      case IntegerDivision => "IntegerDivision"
      case Percentage => "Percentage"
      case AbsoluteDifference => "AbsoluteDifference"
      case UserDefined(c) => c
    }

    /** The operations whose value is computed here exactly (not through
        `float` and not by code outside the module). */
    predicate IsExact() {
      !(Power? || Root? || UserDefined?)
    }
  }

  /** Computations the model does not interpret: `Decimal(pow(float(x), float(y)))`
      as used by Power and Root, and the `execute` of a subclass registered at
      run time. Either may raise. */
  datatype Foreign = Foreign(
    floatPow: (real, real) -> Result<real>,
    userExecute: (string, real, real) -> Result<real>)

  const DivisionByZero := "Division by zero is not allowed"
  const NegativeExponent := "Negative exponents not supported"
  const NegativeRoot := "Cannot calculate root of negative number"
  const ZeroRoot := "Zero root is undefined"
  const ModulusByZero := "Modulus by zero is not allowed"
  const NegativeModulusDividend := "Negative dividend not allowed for modulus"
  const IntegerDivisionByZero := "Integer division by zero is not allowed"
  const NegativeIntegerDivisionDividend := "Negative dividend not allowed for integer division"
  const ZeroWhole := "Percentage calculation with zero as whole value is not allowed"

  /** `validate_operands`: the base class accepts everything; the overrides
      check their guards in the order written. */
  function Validate(k: OpKind, a: real, b: real): (r: Outcome)
    ensures r.Fail? ==> r.error.ValidationError?
    ensures k.Addition? || k.Subtraction? || k.Multiplication? || k.AbsoluteDifference? || k.UserDefined? ==> r == Pass
  {
    match k
    case Division =>
      if b == 0.0 then Fail(ValidationError(DivisionByZero)) else Pass
    case Power =>
      if b < 0.0 then Fail(ValidationError(NegativeExponent)) else Pass
    case Root =>
      if a < 0.0 then Fail(ValidationError(NegativeRoot))
      else if b == 0.0 then Fail(ValidationError(ZeroRoot))
      else Pass
    case Modulus =>
      if b == 0.0 then Fail(ValidationError(ModulusByZero))
      else if a < 0.0 then Fail(ValidationError(NegativeModulusDividend))
      else Pass
    case IntegerDivision =>
      if b == 0.0 then Fail(ValidationError(IntegerDivisionByZero))
      else if a < 0.0 then Fail(ValidationError(NegativeIntegerDivisionDividend))
      else Pass
    case Percentage =>
      if b == 0.0 then Fail(ValidationError(ZeroWhole)) else Pass
    case _ => Pass
  }

  function Abs(x: real): real {
    if x < 0.0 then -x else x
  }

  /** The integer part of `x`, rounding toward zero, as `Decimal.__floordiv__` does. */
  function Trunc(x: real): int {
    if x >= 0.0 then x.Floor else -((-x).Floor)
  }

  /** What each `execute` returns once `validate_operands` has passed. */
  function Compute(k: OpKind, a: real, b: real, foreign: Foreign): (r: Result<real>)
    requires Validate(k, a, b).Pass?
    ensures k.IsExact() ==> r.Success?
  {
    match k
    case Addition => Success(a + b)
    case Subtraction => Success(a - b)
    case Multiplication => Success(a * b)
    case Division => Success(a / b)
    case Power => foreign.floatPow(a, b)
    case Root => foreign.floatPow(a, 1.0 / b)
    case Modulus => Success(a - b * (Trunc(a / b) as real))
    case IntegerDivision => Success(Trunc(a / b) as real)
    case Percentage => Success((a / b) * 100.0)
    case AbsoluteDifference => Success(Abs(a - b))
    case UserDefined(c) => foreign.userExecute(c, a, b)
  }

  /** `execute`: validate first, then compute. */
  function Execute(k: OpKind, a: real, b: real, foreign: Foreign): (r: Result<real>)
    ensures r.Success? ==> Validate(k, a, b).Pass?
    ensures k.IsExact() ==> (r.Failure? ==> r.error.ValidationError?)
  {
    match Validate(k, a, b)
    case Fail(e) => Failure(e)
    case Pass => Compute(k, a, b, foreign)
  }

  /** A validation failure is what `execute` raises, whatever the operation;
      an exactly computed operation fails only then. */
  lemma ExecuteFailsExactlyOnValidationFailure(k: OpKind, a: real, b: real, foreign: Foreign)
    ensures Validate(k, a, b).Fail? ==> Execute(k, a, b, foreign) == Failure(Validate(k, a, b).error)
    ensures k.IsExact() ==> (Execute(k, a, b, foreign).Failure? <==> Validate(k, a, b).Fail?)
    ensures Execute(k, a, b, foreign).Failure? && Validate(k, a, b).Pass? ==> !k.IsExact()
  {
  }

  /** Addition, Subtraction, Multiplication and AbsoluteDifference keep the
      base class's check, so they never raise. */
  lemma TotalOperations(a: real, b: real, foreign: Foreign)
    ensures Execute(Addition, a, b, foreign) == Success(a + b)
    ensures Execute(Subtraction, a, b, foreign) == Success(a - b)
    ensures Execute(Multiplication, a, b, foreign) == Success(a * b)
    ensures Execute(AbsoluteDifference, a, b, foreign).Success?
  {
    assert Validate(Multiplication, a, b) == Pass;
    assert Compute(Multiplication, a, b, foreign) == Success(a * b);
  }

  /** |a - b| is never negative, does not depend on the operand order and is
      one of the two differences. */
  lemma AbsoluteDifferenceProperties(a: real, b: real, foreign: Foreign)
    ensures var r := Execute(AbsoluteDifference, a, b, foreign);
      && r.Success?
      && r.value >= 0.0
      && (r.value == a - b || r.value == b - a)
      && r == Execute(AbsoluteDifference, b, a, foreign)
  {
  }

  /** The example `abs_diff -5 3  -> 8`. */
  lemma AbsoluteDifferenceExample(foreign: Foreign)
    ensures Execute(AbsoluteDifference, -5.0, 3.0, foreign) == Success(8.0)
  {
  }

  /** Division by zero raises ValidationError and yields no value; otherwise
      the result is the exact quotient. */
  lemma DivisionSpec(a: real, b: real, foreign: Foreign)
    ensures b == 0.0 <==> Execute(Division, a, b, foreign).Failure?
    ensures b == 0.0 ==> Execute(Division, a, b, foreign) == Failure(ValidationError(DivisionByZero))
    ensures b != 0.0 ==> Execute(Division, a, b, foreign).value * b == a
  {
  }

  /** Power rejects a negative exponent and accepts every other one, zero
      included; the accepted value is the float engine's. */
  lemma PowerGuard(a: real, b: real, foreign: Foreign)
    ensures b < 0.0 ==> Execute(Power, a, b, foreign) == Failure(ValidationError(NegativeExponent))
    ensures b >= 0.0 ==> Execute(Power, a, b, foreign) == foreign.floatPow(a, b)
  {
  }

  /** Root checks the radicand before the degree, so Root(-9, 0) reports the
      negative number. */
  lemma RootGuard(a: real, b: real, foreign: Foreign)
    ensures a < 0.0 ==> Execute(Root, a, b, foreign) == Failure(ValidationError(NegativeRoot))
    ensures a >= 0.0 && b == 0.0 ==> Execute(Root, a, b, foreign) == Failure(ValidationError(ZeroRoot))
    ensures a >= 0.0 && b != 0.0 ==> Execute(Root, a, b, foreign) == foreign.floatPow(a, 1.0 / b)
    ensures Execute(Root, -9.0, 0.0, foreign) == Failure(ValidationError(NegativeRoot))
  {
  }

  /** Modulus and IntegerDivision check the divisor before the dividend. */
  lemma ModulusAndIntegerDivisionGuards(a: real, b: real, foreign: Foreign)
    ensures b == 0.0 ==> Execute(Modulus, a, b, foreign) == Failure(ValidationError(ModulusByZero))
    ensures b == 0.0 ==> Execute(IntegerDivision, a, b, foreign) == Failure(ValidationError(IntegerDivisionByZero))
    ensures b != 0.0 && a < 0.0 ==>
      Execute(Modulus, a, b, foreign) == Failure(ValidationError(NegativeModulusDividend))
    ensures b != 0.0 && a < 0.0 ==>
      Execute(IntegerDivision, a, b, foreign) == Failure(ValidationError(NegativeIntegerDivisionDividend))
    ensures Execute(Modulus, a, b, foreign).Success? <==> b != 0.0 && a >= 0.0
    ensures Execute(IntegerDivision, a, b, foreign).Success? <==> b != 0.0 && a >= 0.0
  {
  }

  lemma TruncBounds(x: real)
    ensures x >= 0.0 ==> 0.0 <= x - Trunc(x) as real < 1.0
    ensures x < 0.0 ==> 0.0 <= Trunc(x) as real - x < 1.0
  {
  }

  /** On accepted operands, `a // b` is a whole number q and `a % b` is the
      remainder r with a == b*q + r and 0 <= r < |b|; for b > 0, q is the
      floor of a/b. */
  lemma DivisionWithRemainder(a: real, b: real, foreign: Foreign)
    requires a >= 0.0 && b != 0.0
    ensures var q := Execute(IntegerDivision, a, b, foreign).value;
            var r := Execute(Modulus, a, b, foreign).value;
      && q == q.Floor as real
      && b * q + r == a
      && 0.0 <= r < Abs(b)
      && (b > 0.0 ==> q == (a / b).Floor as real)
  {
    var t := a / b;
    var q := Trunc(t) as real;
    assert Execute(IntegerDivision, a, b, foreign).value == q;
    assert Execute(Modulus, a, b, foreign).value == a - b * q;
    assert a == b * t;
    TruncBounds(t);
    if b > 0.0 {
      assert t >= 0.0;
      ScaledFraction(b, t - q);
      assert a - b * q == b * (t - q);
    } else if t == 0.0 {
      assert q == 0.0;
    } else {
      assert t < 0.0;
      ScaledFraction(-b, q - t);
      assert a - b * q == (-b) * (q - t);
    }
  }

  /** A positive amount scaled by a fraction below one stays below it. */
  lemma ScaledFraction(c: real, d: real)
    requires c > 0.0 && 0.0 <= d < 1.0
    ensures 0.0 <= c * d < c
  {
    assert c * d < c * 1.0;
  }

  /** The examples `int_divide 17 5 -> 3` and `modulus 17 5 -> 2`. */
  lemma DivisionWithRemainderExample(foreign: Foreign)
    ensures Execute(IntegerDivision, 17.0, 5.0, foreign) == Success(3.0)
    ensures Execute(Modulus, 17.0, 5.0, foreign) == Success(2.0)
  {
    assert (17.0 / 5.0).Floor == 3;
  }

  /** A zero whole raises ValidationError; otherwise the result is a as a
      percentage of b. */
  lemma PercentageSpec(a: real, b: real, foreign: Foreign)
    ensures b == 0.0 ==> Execute(Percentage, a, b, foreign) == Failure(ValidationError(ZeroWhole))
    ensures b != 0.0 ==> Execute(Percentage, a, b, foreign).Success?
    ensures b != 0.0 ==> Execute(Percentage, a, b, foreign).value * b == a * 100.0
    ensures Execute(Percentage, 50.0, 200.0, foreign) == Success(25.0)
  {
    if b != 0.0 {
      var r := Execute(Percentage, a, b, foreign).value;
      assert r == (a / b) * 100.0;
      assert (a / b) * b == a;
      assert r * b == ((a / b) * b) * 100.0;
    }
  }

  /** What `register_operation` is given: an Operation subclass, or any other class. */
  datatype OperationClass = OperationSubclass(kind: OpKind) | NotAnOperation(className: string)

  const NotAnOperationClass := "Operation class must inherit from Operation"

  /** The table `_operations` starts with. */
  const DefaultOperations: map<string, OpKind> := map[
    "add" := Addition,
    "subtract" := Subtraction,
    "multiply" := Multiplication,
    "divide" := Division,
    "power" := Power,
    "root" := Root,
    "modulus" := Modulus,
    "int_divide" := IntegerDivision,
    "percent" := Percentage,
    "abs_diff" := AbsoluteDifference
  ]

  /** The table after `register_operation(name, cls)`, or the TypeError it raises. */
  function Register(ops: map<string, OpKind>, name: string, cls: OperationClass): Result<map<string, OpKind>> {
    if cls.NotAnOperation? then Failure(TypeError(NotAnOperationClass))
    else Success(ops[Lower(name) := cls.kind])
  }

  /** What `create_operation(operationType)` returns or raises on the table `ops`. */
  function Lookup(ops: map<string, OpKind>, operationType: string): Result<OpKind> {
    var key := Lower(operationType);
    if key in ops then Success(ops[key]) else Failure(ValueError("Unknown operation: " + operationType))
  }

  /** Registering a non-Operation class raises TypeError; an Operation
      subclass is stored under the lower-cased name, replacing any earlier
      entry, and no other key changes. */
  lemma RegisterSpec(ops: map<string, OpKind>, name: string, cls: OperationClass)
    ensures Register(ops, name, cls).Failure? <==> cls.NotAnOperation?
    ensures cls.NotAnOperation? ==> Register(ops, name, cls) == Failure(TypeError(NotAnOperationClass))
    ensures cls.OperationSubclass? ==>
      var m := Register(ops, name, cls).value;
      && m.Keys == ops.Keys + {Lower(name)}
      && m[Lower(name)] == cls.kind
      && forall k :: k in ops && k != Lower(name) ==> m[k] == ops[k]
  {
  }

  /** After `register_operation(name, C)`, creating any case-variant of
      `name`, the lower-cased name itself included, yields a C. */
  lemma CreateAfterRegister(ops: map<string, OpKind>, name: string, cls: OperationClass, operationType: string)
    requires cls.OperationSubclass?
    requires Lower(operationType) == Lower(name) || operationType == Lower(name)
    ensures Lookup(Register(ops, name, cls).value, operationType) == Success(cls.kind)
  {
    LowerIdempotent(name);
  }

  /** A name whose lower-cased form is not in the table raises ValueError. */
  lemma LookupMiss(ops: map<string, OpKind>, operationType: string)
    requires Lower(operationType) !in ops
    ensures Lookup(ops, operationType) == Failure(ValueError("Unknown operation: " + operationType))
  {
  }

  /** The lookup ignores case: "ADD" finds Addition, and an unknown name
      is reported as given. */
  lemma LookupIgnoresCase()
    ensures Lookup(DefaultOperations, "ADD") == Success(Addition)
    ensures Lookup(DefaultOperations, "Sqrt") == Failure(ValueError("Unknown operation: Sqrt"))
  {
    var add := Lower("ADD");
    assert add[0] == 'a' && add[1] == 'd' && add[2] == 'd';
    assert add == "add";
    var sqrt := Lower("Sqrt");
    assert sqrt[0] == 's' && sqrt[1] == 'q' && sqrt[2] == 'r' && sqrt[3] == 't';
    assert sqrt == "sqrt";
    assert "sqrt" !in DefaultOperations;
    LookupMiss(DefaultOperations, "Sqrt");
    assert "Unknown operation: " + "Sqrt" == "Unknown operation: Sqrt";
  }

  /** `OperationFactory`: its class-level table `_operations`. */
  class OperationFactory {
    var operations: map<string, OpKind>

    constructor ()
      ensures operations == DefaultOperations
    {
      operations := DefaultOperations;
    }

    /** `register_operation`. */
    method RegisterOperation(name: string, operationClass: OperationClass) returns (r: Outcome)
      modifies this
      ensures r.Fail? <==> operationClass.NotAnOperation?
      ensures r.Fail? ==> r.error == TypeError(NotAnOperationClass) && operations == old(operations)
      ensures r.Pass? ==> operations == old(operations)[Lower(name) := operationClass.kind]
      ensures Register(old(operations), name, operationClass) ==
        if r.Pass? then Success(operations) else Failure(r.error)
    {
      if operationClass.NotAnOperation? {
        return Fail(TypeError(NotAnOperationClass));
      }
      operations := operations[Lower(name) := operationClass.kind];
      r := Pass;
    }

    /** `create_operation`: a case-insensitive lookup that leaves the table alone. */
    method CreateOperation(operationType: string) returns (r: Result<OpKind>)
      ensures r.Success? <==> Lower(operationType) in operations
      ensures r.Success? ==> r.value == operations[Lower(operationType)]
      ensures r.Failure? ==> r.error == ValueError("Unknown operation: " + operationType)
      ensures r == Lookup(operations, operationType)
    {
      var key := Lower(operationType);
      if key !in operations {
        return Failure(ValueError("Unknown operation: " + operationType));
      }
      r := Success(operations[key]);
    }
  }
}
