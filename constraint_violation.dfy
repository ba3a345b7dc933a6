/** `ConstraintViolationException`: an HTTP exception whose detail lists
    every violation after a fixed prefix. */
module ConstraintViolation {
  import opened Http
  import opened Validator

  const DetailPrefix := "Constraint violation error. "

  /** What one violation contributes to the detail. */
  function Segment(v: Violation): string {
    v.propertyPath + " : " + v.message + ". "
  }

  /** The contributions of all violations, in list order. */
  function Segments(errors: seq<Violation>): string {
    if errors == [] then "" else Segment(errors[0]) + Segments(errors[1..])
  }

  /** Appending a violation appends exactly its segment. */
  lemma {:induction false} SegmentsAppend(errors: seq<Violation>, v: Violation)
    ensures Segments(errors + [v]) == Segments(errors) + Segment(v)
  {
    if errors == [] {
      assert errors + [v] == [v];
    } else {
      assert (errors + [v])[0] == errors[0] && (errors + [v])[1..] == errors[1..] + [v];
      SegmentsAppend(errors[1..], v);
    }
  }

  /** The constructor: builds the detail in a loop and hands the status
      code to `HttpException` unchanged. */
  method NewConstraintViolationException(statusCode: int, errors: seq<Violation>)
    returns (e: HttpException)
    ensures e == HttpException(statusCode, DetailPrefix + Segments(errors))
  {
    var detail := DetailPrefix;
    for i := 0 to |errors|
      invariant detail == DetailPrefix + Segments(errors[..i])
    {
      SegmentsAppend(errors[..i], errors[i]);
      assert errors[..i + 1] == errors[..i] + [errors[i]];
      detail := detail + Segment(errors[i]);
    }
    assert errors[..|errors|] == errors;
    e := HttpException(statusCode, detail);
  }

  /** The detail of an empty list is the prefix alone; with violations it
      is strictly longer, since every segment holds at least " : ". */
  lemma {:induction false} SegmentsEmptyIff(errors: seq<Violation>)
    ensures Segments(errors) == "" <==> errors == []
    ensures |Segments(errors)| >= 5 * |errors|
  {
    if errors != [] {
      SegmentsEmptyIff(errors[1..]);
    }
  }
}
