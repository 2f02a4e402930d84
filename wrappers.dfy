/** Option and Result datatypes shared by every module of the model.
    A Java method that throws is modelled as returning `Err` with the
    exception class it would raise; `null` results are `None`. */
module Wrappers {

  datatype Option<+T> = None | Some(value: T)

  /** The exception classes the modelled Java code raises. */
  datatype Thrown =
    | IllegalStateException
    | NumberFormatException
    | NullPointerException
    | IndexOutOfBoundsException
    | ArithmeticException    // a BigDecimal division by zero
    | MalformedParametersException
    | UnsupportedOperationException
    | JavaError              // java.lang.Error, thrown by a few helpers
    | ConfigError            // ConversionConfig.Err (a RuntimeException)

  datatype Result<+T> = Ok(value: T) | Err(thrown: Thrown)

  /** The outcomes of converting a list in order: the first failure, or
      every result. */
  function Collect<T>(outcomes: seq<Result<T>>): Result<seq<T>>
  {
    if outcomes == [] then Ok([])
    else match Collect(outcomes[..|outcomes| - 1])
      case Err(e) => Err(e)
      case Ok(xs) =>
        match outcomes[|outcomes| - 1]
        case Err(e) => Err(e)
        case Ok(b) => Ok(xs + [b])
  }

  /** Once a prefix has failed, later outcomes do not matter. */
  lemma {:induction false} CollectStops<T>(outcomes: seq<Result<T>>, n: nat)
    requires n <= |outcomes| && Collect(outcomes[..n]).Err?
    ensures Collect(outcomes) == Collect(outcomes[..n])
    decreases |outcomes| - n
  {
    if n == |outcomes| {
      assert outcomes[..n] == outcomes;
    } else {
      assert outcomes[..n + 1][..n] == outcomes[..n];
      CollectStops(outcomes, n + 1);
    }
  }

  /** One more outcome: a success extends the collected prefix, a failure
      decides the whole collection. */
  lemma CollectStep<T>(outcomes: seq<Result<T>>, i: nat, xs: seq<T>)
    requires i < |outcomes| && Collect(outcomes[..i]) == Ok(xs)
    ensures outcomes[i].Ok? ==> Collect(outcomes[..i + 1]) == Ok(xs + [outcomes[i].value])
    ensures outcomes[i].Err? ==> Collect(outcomes) == Err(outcomes[i].thrown)
  {
    assert outcomes[..i + 1][..i] == outcomes[..i];
    if outcomes[i].Err? {
      CollectStops(outcomes, i + 1);
    }
  }

  /** A successful collection has one result per outcome, in order; a
      failed one comes from some failed outcome. */
  lemma {:induction false} CollectShape<T>(outcomes: seq<Result<T>>)
    ensures Collect(outcomes).Ok? ==>
      |Collect(outcomes).value| == |outcomes| &&
      forall i :: 0 <= i < |outcomes| ==> outcomes[i] == Ok(Collect(outcomes).value[i])
    ensures Collect(outcomes).Err? <==> exists i :: 0 <= i < |outcomes| && outcomes[i].Err?
    decreases |outcomes|
  {
    if outcomes != [] {
      var init := outcomes[..|outcomes| - 1];
      CollectShape(init);
      assert forall i :: 0 <= i < |init| ==> init[i] == outcomes[i];
      if Collect(init).Err? {
        var i :| 0 <= i < |init| && init[i].Err?;
        assert outcomes[i].Err?;
      }
    }
  }
}
