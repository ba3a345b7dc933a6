/** `ValidationErrorService`: folds a violation list into the 400 response
    `{status: "error", errors: {path: message, ...}}`. */
module ValidationErrorService {
  import opened Common
  import opened Http
  import opened Validator

  /** The `$errorMessages` array after the `foreach`: each violation in
      turn writes its message under its property path. */
  function ErrorMessages(errors: seq<Violation>): map<string, string> {
    if errors == [] then map[]
    else
      var k := |errors| - 1;
      ErrorMessages(errors[..k])[errors[k].propertyPath := errors[k].message]
  }

  /** `createValidationErrorResponse`. */
  method CreateValidationErrorResponse(errors: seq<Violation>) returns (response: JsonResponse)
    ensures response == JsonResponse(StatusBadRequest, ErrorReport("error", ErrorMessages(errors)), None)
  {
    var errorMessages: map<string, string> := map[];
    for i := 0 to |errors|
      invariant errorMessages == ErrorMessages(errors[..i])
    {
      assert errors[..i + 1][..i] == errors[..i];
      errorMessages := errorMessages[errors[i].propertyPath := errors[i].message];
    }
    assert errors[..|errors|] == errors;
    response := JsonResponse(StatusBadRequest, ErrorReport("error", errorMessages), None);
  }

  /** One entry per distinct property path among the violations. */
  lemma {:induction false} ErrorMessagesKeys(errors: seq<Violation>)
    ensures ErrorMessages(errors).Keys == set v | v in errors :: v.propertyPath
  {
    if errors != [] {
      var k := |errors| - 1;
      ErrorMessagesKeys(errors[..k]);
      assert errors == errors[..k] + [errors[k]];
      assert (set v | v in errors :: v.propertyPath)
          == (set v | v in errors[..k] :: v.propertyPath) + {errors[k].propertyPath};
    }
  }

  /** Under each path stands the message of the last violation with that
      path. */
  lemma {:induction false} ErrorMessagesLastWins(errors: seq<Violation>, i: nat)
    requires i < |errors|
    requires forall j :: i < j < |errors| ==> errors[j].propertyPath != errors[i].propertyPath
    ensures errors[i].propertyPath in ErrorMessages(errors)
    ensures ErrorMessages(errors)[errors[i].propertyPath] == errors[i].message
  {
    var k := |errors| - 1;
    if i < k {
      ErrorMessagesLastWins(errors[..k], i);
    }
  }
}
