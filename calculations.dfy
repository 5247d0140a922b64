/** The calculation records of app/models/calculation.py: the factory that
    turns a type name into one of four arithmetic operations, and the
    evaluator of each operation. */
module Calculations {
  import opened Folds
  import opened Text

  /** A user identifier: a 128-bit UUID. */
  type Uuid = x: int | 0 <= x < 0x1_0000_0000_0000_0000_0000_0000_0000_0000

  /** The stored `inputs` column: a JSON value that is either a list of
      numbers or something else. */
  datatype Inputs = List(values: seq<real>) | NotAList

  /** The polymorphic type of a record: the abstract base or one of the four
      concrete operations. */
  datatype Kind = Base | Addition | Subtraction | Multiplication | Division

  /** A calculation record, as far as the factory and the evaluators see it. */
  datatype Calculation = Calculation(kind: Kind, userId: Uuid, inputs: Inputs)

  /** The exceptions the evaluators and the factory raise. */
  datatype Error = ValueError(message: string) | NotImplementedError

  datatype Option<T> = None | Some(value: T)

  datatype Result<T> = Success(value: T) | Failure(error: Error)

  const UnsupportedTypePrefix: string := "Unsupported calculation type: "
  const NotAListMessage: string := "Inputs must be a list of numbers."
  const TooFewMessage: string := "Inputs must be a list with at least two numbers."
  const DivideByZeroMessage: string := "Cannot divide by zero."

  /** The polymorphic identity stored in the `type` column for each kind;
      every identity is written in lower case. */
  function Identity(k: Kind): (r: string)
    ensures IsLower(r)
  {
    match k
    case Base => "calculation"
    case Addition => "addition"
    case Subtraction => "subtraction"
    case Multiplication => "multiplication"
    case Division => "division"
  }

  /** The factory's table from lower-case type name to operation: it knows
      the four concrete operations and nothing else. */
  function Lookup(name: string): (r: Option<Kind>)
    ensures r.Some? ==> r.value != Base && Identity(r.value) == name
    ensures r.None? ==> forall k :: k != Base ==> Identity(k) != name
  {
    if name == "addition" then Some(Addition)
    else if name == "subtraction" then Some(Subtraction)
    else if name == "multiplication" then Some(Multiplication)
    else if name == "division" then Some(Division)
    else None
  }

  /** `Calculation.create`: the operation whose identity is the lower-case
      form of `calculationType`, carrying `userId` and `inputs` unchanged,
      or an "unsupported type" error naming the type as given. */
  function Create(calculationType: string, userId: Uuid, inputs: Inputs): (r: Result<Calculation>)
    ensures r.Success? <==> exists k :: k != Base && Identity(k) == Lower(calculationType)
    ensures r.Success? ==>
      r.value.kind != Base && Identity(r.value.kind) == Lower(calculationType) &&
      r.value.userId == userId && r.value.inputs == inputs
    ensures r.Failure? ==> r.error == ValueError(UnsupportedTypePrefix + calculationType)
  {
    match Lookup(Lower(calculationType))
    case Some(k) => Success(Calculation(k, userId, inputs))
    case None => Failure(ValueError(UnsupportedTypePrefix + calculationType))
  }

  /** Every identity is written in lower case. */
  lemma IdentityIsLower(k: Kind)
    ensures Lower(Identity(k)) == Identity(k)
  {
    LowerFixesLower(Identity(k));
  }

  /** Type names that differ only in letter case create the same record, and
      one is refused exactly when the other is. */
  lemma CreateIgnoresCase(s: string, t: string, userId: Uuid, inputs: Inputs)
    requires SameIgnoringCase(s, t)
    ensures Create(s, userId, inputs).Success? <==> Create(t, userId, inputs).Success?
    ensures Create(s, userId, inputs).Success? ==> Create(s, userId, inputs) == Create(t, userId, inputs)
  {
  }

  /** Each concrete kind is created from its own identity, and from any
      spelling of it in other letter case. */
  lemma CreateByIdentity(k: Kind, s: string, userId: Uuid, inputs: Inputs)
    requires k != Base
    requires SameIgnoringCase(s, Identity(k))
    ensures Create(s, userId, inputs) == Success(Calculation(k, userId, inputs))
  {
    LowerIgnoresCase(s, Identity(k));
    IdentityIsLower(k);
  }

  /** The base identity "calculation" is not a type the factory accepts. */
  lemma CreateRefusesBase(s: string, userId: Uuid, inputs: Inputs)
    requires SameIgnoringCase(s, Identity(Base))
    ensures Create(s, userId, inputs) == Failure(ValueError(UnsupportedTypePrefix + s))
  {
    LowerIgnoresCase(s, Identity(Base));
    IdentityIsLower(Base);
  }

  /** What `get_result` yields for each kind, in closed form: the sum, the
      first input minus the sum of the rest, the product, and the first
      input divided by the product of the rest, each behind the guard its
      subclass checks. It fails exactly when the record is the base, or its
      inputs are not a list, or a subtraction or division has fewer than two
      inputs, or a division has a zero among the inputs after the first; and
      only the base fails with `NotImplementedError`. */
  function Outcome(kind: Kind, inputs: Inputs): (r: Result<real>)
    ensures r.Failure? <==>
      kind == Base || !inputs.List? ||
      ((kind == Subtraction || kind == Division) && |inputs.values| < 2) ||
      (kind == Division && exists i :: 1 <= i < |inputs.values| && inputs.values[i] == 0.0)
    ensures r == Failure(NotImplementedError) <==> kind == Base
  {
    match kind
    case Base => Failure(NotImplementedError)
    case Addition =>
      if !inputs.List? then Failure(ValueError(NotAListMessage))
      else Success(Sum(inputs.values))
    case Subtraction =>
      if !inputs.List? || |inputs.values| < 2 then Failure(ValueError(TooFewMessage))
      else Success(inputs.values[0] - Sum(inputs.values[1..]))
    case Multiplication =>
      if !inputs.List? then Failure(ValueError(NotAListMessage))
      else Success(Product(inputs.values))
    case Division =>
      if !inputs.List? || |inputs.values| < 2 then Failure(ValueError(TooFewMessage))
      else
        var xs := inputs.values;
        assert forall i :: 1 <= i < |xs| ==> xs[1..][i - 1] == xs[i];
        if Product(xs[1..]) == 0.0 then Failure(ValueError(DivideByZeroMessage))
      else Success(inputs.values[0] / Product(inputs.values[1..]))
  }

  /** `Subtraction.get_result`: the first input, minus each later input in turn. */
  method Subtract(inputs: Inputs) returns (r: Result<real>)
    ensures r == Outcome(Subtraction, inputs)
  {
    if !inputs.List? || |inputs.values| < 2 {
      return Failure(ValueError(TooFewMessage));
    }
    var xs := inputs.values;
    var result := xs[0];
    var i := 1;
    while i < |xs|
      invariant 1 <= i <= |xs|
      invariant result == xs[0] - Sum(xs[1..i])
    {
      assert xs[1..i + 1] == xs[1..i] + [xs[i]];
      SumSnoc(xs[1..i], xs[i]);
      result := result - xs[i];
      i := i + 1;
    }
    assert xs[1..i] == xs[1..];
    return Success(result);
  }

  /** `Multiplication.get_result`: 1, multiplied by each input in turn. */
  method Multiply(inputs: Inputs) returns (r: Result<real>)
    ensures r == Outcome(Multiplication, inputs)
  {
    if !inputs.List? {
      return Failure(ValueError(NotAListMessage));
    }
    var xs := inputs.values;
    var result := 1.0;
    var i := 0;
    while i < |xs|
      invariant 0 <= i <= |xs|
      invariant result == Product(xs[..i])
    {
      assert xs[..i + 1] == xs[..i] + [xs[i]];
      ProductSnoc(xs[..i], xs[i]);
      result := result * xs[i];
      i := i + 1;
    }
    assert xs[..i] == xs;
    return Success(result);
  }

  /** `Division.get_result`: the first input, divided by each later input in
      turn, stopping with an error at the first zero divisor. */
  method Divide(inputs: Inputs) returns (r: Result<real>)
    ensures r == Outcome(Division, inputs)
  {
    if !inputs.List? || |inputs.values| < 2 {
      return Failure(ValueError(TooFewMessage));
    }
    var xs := inputs.values;
    var result := xs[0];
    var i := 1;
    while i < |xs|
      invariant 1 <= i <= |xs|
      invariant Product(xs[1..i]) != 0.0
      invariant result == xs[0] / Product(xs[1..i])
    {
      if xs[i] == 0.0 {
        assert xs[1..][i - 1] == 0.0;
        return Failure(ValueError(DivideByZeroMessage));
      }
      assert xs[1..i + 1] == xs[1..i] + [xs[i]];
      QuotientSnoc(xs[0], xs[1..i], xs[i]);
      result := result / xs[i];
      i := i + 1;
    }
    assert xs[1..i] == xs[1..];
    return Success(result);
  }

  /** `get_result`, dispatched on the record's kind; the abstract base raises
      `NotImplementedError`. The record is a value, so evaluating it leaves
      its kind, user and inputs as they were. */
  method GetResult(c: Calculation) returns (r: Result<real>)
    ensures r == Outcome(c.kind, c.inputs)
  {
    match c.kind
    case Base =>
      r := Failure(NotImplementedError);
    case Addition =>
      r := if c.inputs.List? then Success(Sum(c.inputs.values)) else Failure(ValueError(NotAListMessage));
    case Subtraction =>
      r := Subtract(c.inputs);
    case Multiplication =>
      r := Multiply(c.inputs);
    case Division =>
      r := Divide(c.inputs);
  }

  /** Division by the product of the later inputs fails exactly when one of
      them is zero; a zero first input is a valid dividend. */
  lemma {:induction false} DivisionZeroTest(xs: seq<real>)
    requires |xs| >= 2
    ensures Outcome(Division, List(xs)) == Failure(ValueError(DivideByZeroMessage)) <==>
      exists i :: 1 <= i < |xs| && xs[i] == 0.0
    ensures xs[0] == 0.0 && (forall i :: 1 <= i < |xs| ==> xs[i] != 0.0) ==>
      Outcome(Division, List(xs)) == Success(0.0)
  {
    var rest := xs[1..];
    if exists i :: 1 <= i < |xs| && xs[i] == 0.0 {
      var i :| 1 <= i < |xs| && xs[i] == 0.0;
      assert rest[i - 1] == 0.0;
    }
    if HasZero(rest) {
      var j :| 0 <= j < |rest| && rest[j] == 0.0;
      assert xs[j + 1] == 0.0;
    }
  }

  /** The results on the smallest inputs: the empty sum is 0, the empty
      product is 1, subtraction and division refuse a single input, and the
      base refuses every input. */
  lemma EdgeCases(x: real, inputs: Inputs)
    ensures Outcome(Addition, List([])) == Success(0.0)
    ensures Outcome(Multiplication, List([])) == Success(1.0)
    ensures Outcome(Subtraction, List([x])) == Failure(ValueError(TooFewMessage))
    ensures Outcome(Division, List([x])) == Failure(ValueError(TooFewMessage))
    ensures Outcome(Base, inputs) == Failure(NotImplementedError)
  {
  }

  /** Adding the later inputs back onto a subtraction's result gives back its
      first input. */
  lemma SubtractionUndoneByAddition(xs: seq<real>)
    requires |xs| >= 2
    ensures Outcome(Addition, List([Outcome(Subtraction, List(xs)).value] + xs[1..]))
         == Success(xs[0])
  {
    var d := xs[0] - Sum(xs[1..]);
    SumConcat([d], xs[1..]);
    assert Sum([d]) == Sum([d][..0]) + d;
  }

  /** Multiplying a division's result by the later inputs gives back its
      first input. */
  lemma DivisionUndoneByMultiplication(xs: seq<real>)
    requires |xs| >= 2
    requires Outcome(Division, List(xs)).Success?
    ensures Outcome(Multiplication, List([Outcome(Division, List(xs)).value] + xs[1..]))
         == Success(xs[0])
  {
    var p := Product(xs[1..]);
    var q := xs[0] / p;
    assert p != 0.0;
    ProductConcat([q], xs[1..]);
    assert Product([q]) == Product([q][..0]) * q;
    assert Product([q]) == q;
    assert Product([q] + xs[1..]) == q * p == xs[0];
    assert Outcome(Division, List(xs)) == Success(q);
  }
}
