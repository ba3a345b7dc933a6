/** Symfony's validator, reduced to what the `User` entity's constraint
    attributes use: a violation list entry and the behaviour of the
    `NotBlank`, `Length`, `Email` and `PasswordStrength` constraints. */
module Validator {
  import opened Common

  /** One entry of a `ConstraintViolationList`. */
  datatype Violation = Violation(propertyPath: string, message: string)

  /** `NotBlank` treats null and the empty string as blank (whitespace is
      not trimmed). */
  predicate IsBlank(v: Option<string>) {
    v.None? || v.value == ""
  }

  function NotBlank(path: string, v: Option<string>, message: string): (r: seq<Violation>)
    ensures |r| <= 1
    ensures r != [] <==> IsBlank(v)
    ensures forall x :: x in r ==> x == Violation(path, message)
  {
    if IsBlank(v) then [Violation(path, message)] else []
  }

  /** `Length(min, max)`: null is skipped; a value over `max` is reported
      with the max message, otherwise one under `min` with the min message
      (at most one violation). `min == 0` stands for "no minimum". */
  function Length(path: string, v: Option<string>, min: nat, max: nat,
                  minMessage: string, maxMessage: string): (r: seq<Violation>)
    ensures |r| <= 1
    ensures r == [] <==> v.None? || min <= |v.value| <= max
    ensures v.Some? && |v.value| > max ==> r == [Violation(path, maxMessage)]
    ensures v.Some? && |v.value| < min && min <= max ==> r == [Violation(path, minMessage)]
  {
    if v.None? then []
    else if |v.value| > max then [Violation(path, maxMessage)]
    else if |v.value| < min then [Violation(path, minMessage)]
    else []
  }

  /** A check whose decision is delegated (`Email`, `PasswordStrength`):
      null and the empty string are skipped, anything else is reported
      unless `accepts` holds of it. */
  function Delegated(path: string, v: Option<string>, accepts: string -> bool,
                     message: string): (r: seq<Violation>)
    ensures |r| <= 1
    ensures r == [] <==> IsBlank(v) || accepts(v.value)
    ensures forall x :: x in r ==> x == Violation(path, message)
  {
    if IsBlank(v) || accepts(v.value) then [] else [Violation(path, message)]
  }
}
