/** The constraint attributes of the `User` entity, read as a function
    from the entity's field values to the ordered list of violations the
    validator reports for them. */
module UserConstraints {
  import opened Common
  import opened Validator

  /** The values the validator looks at on a `User`; `hasClient` says
      whether the `client` association is set. */
  datatype UserFields = UserFields(
    username: Option<string>,
    password: Option<string>,
    name: Option<string>,
    surname: Option<string>,
    email: Option<string>,
    hasClient: bool)

  const UsernameBlank := "You must enter a username"
  const PasswordBlank := "You must enter a password"
  const NameBlank := "You must enter a name"
  const SurnameBlank := "You must enter a surname"
  const EmailBlank := "You must enter an email adress"
  const ClientBlank := "You must enter a client id"
  const UsernameTooShort := "The username must be at least 1 character long"
  const UsernameTooLong := "The username must be a maximum of 180 characters"
  const PasswordTooWeak := "Your password is too weak. Add numbers, upper, lower and special characters"
  const NameTooShort := "The name must be at least 1 character long"
  const NameTooLong := "The name must be a maximum of 50 characters"
  const SurnameTooShort := "The surname must be at least 1 character long"
  const SurnameTooLong := "The surname must be a maximum of 50 characters"
  const EmailTooLong := "The email must be a maximum of 50 characters"
  const EmailInvalid := "Incorrect email address"

  /** Violations of each property, its constraints in declared order. */
  function UsernameViolations(f: UserFields): (r: seq<Violation>)
    ensures r == [] <==> f.username.Some? && 1 <= |f.username.value| <= 180
    ensures IsBlank(f.username) ==> Violation("username", UsernameBlank) in r
    ensures forall v :: v in r ==> v.propertyPath == "username"
  {
    NotBlank("username", f.username, UsernameBlank)
    + Length("username", f.username, 1, 180,
             UsernameTooShort,
             UsernameTooLong)
  }

  function PasswordViolations(f: UserFields, isStrongPassword: string -> bool): (r: seq<Violation>)
    ensures r == [] <==> f.password.Some? && f.password.value != "" && isStrongPassword(f.password.value)
    ensures IsBlank(f.password) ==> Violation("password", PasswordBlank) in r
    ensures forall v :: v in r ==> v.propertyPath == "password"
  {
    NotBlank("password", f.password, PasswordBlank)
    + Delegated("password", f.password, isStrongPassword,
                PasswordTooWeak)
  }

  function NameViolations(f: UserFields): (r: seq<Violation>)
    ensures r == [] <==> f.name.Some? && 1 <= |f.name.value| <= 50
    ensures IsBlank(f.name) ==> Violation("name", NameBlank) in r
    ensures forall v :: v in r ==> v.propertyPath == "name"
  {
    Length("name", f.name, 1, 50,
           NameTooShort,
           NameTooLong)
    + NotBlank("name", f.name, NameBlank)
  }

  function SurnameViolations(f: UserFields): (r: seq<Violation>)
    ensures r == [] <==> f.surname.Some? && 1 <= |f.surname.value| <= 50
    ensures IsBlank(f.surname) ==> Violation("surname", SurnameBlank) in r
    ensures forall v :: v in r ==> v.propertyPath == "surname"
  {
    Length("surname", f.surname, 1, 50,
           SurnameTooShort,
           SurnameTooLong)
    + NotBlank("surname", f.surname, SurnameBlank)
  }

  function EmailViolations(f: UserFields, isEmail: string -> bool): (r: seq<Violation>)
    ensures r == [] <==> f.email.Some? && f.email.value != "" && |f.email.value| <= 50 && isEmail(f.email.value)
    ensures IsBlank(f.email) ==> Violation("email", EmailBlank) in r
    ensures forall v :: v in r ==> v.propertyPath == "email"
  {
    Length("email", f.email, 0, 50, "",
           EmailTooLong)
    + NotBlank("email", f.email, EmailBlank)
    + Delegated("email", f.email, isEmail, EmailInvalid)
  }

  function ClientViolations(f: UserFields): (r: seq<Violation>)
    ensures r == [] <==> f.hasClient
    ensures forall v :: v in r ==> v.propertyPath == "client"
  {
    if f.hasClient then [] else [Violation("client", ClientBlank)]
  }

  /** Violations in the validator's order: properties as declared in the
      entity, and within one property its constraints as declared. */
  function ValidateUser(f: UserFields, isEmail: string -> bool,
                        isStrongPassword: string -> bool): (r: seq<Violation>)
    ensures f.hasClient <==> Violation("client", ClientBlank) !in r
  {
    UsernameViolations(f) + PasswordViolations(f, isStrongPassword)
    + NameViolations(f) + SurnameViolations(f)
    + EmailViolations(f, isEmail) + ClientViolations(f)
  }

  /** Reference reading of the attributes: what a user must look like to
      be accepted. */
  predicate UserAcceptable(f: UserFields, isEmail: string -> bool,
                           isStrongPassword: string -> bool)
  {
    && f.username.Some? && 1 <= |f.username.value| <= 180
    && f.password.Some? && f.password.value != "" && isStrongPassword(f.password.value)
    && f.name.Some? && 1 <= |f.name.value| <= 50
    && f.surname.Some? && 1 <= |f.surname.value| <= 50
    && f.email.Some? && f.email.value != "" && |f.email.value| <= 50 && isEmail(f.email.value)
    && f.hasClient
  }

  /** The validator reports nothing exactly when the user is acceptable. */
  lemma ValidateUserEmptyIff(f: UserFields, isEmail: string -> bool,
                             isStrongPassword: string -> bool)
    ensures ValidateUser(f, isEmail, isStrongPassword) == []
        <==> UserAcceptable(f, isEmail, isStrongPassword)
  {
    var u, p, n, s, e, c := UsernameViolations(f), PasswordViolations(f, isStrongPassword),
      NameViolations(f), SurnameViolations(f), EmailViolations(f, isEmail), ClientViolations(f);
    assert |ValidateUser(f, isEmail, isStrongPassword)| == |u| + |p| + |n| + |s| + |e| + |c|;
  }

  /** Each blank required field is reported under its own path with the
      message its `NotBlank` attribute declares. */
  lemma BlankFieldsReported(f: UserFields, isEmail: string -> bool,
                            isStrongPassword: string -> bool)
    ensures var vs := ValidateUser(f, isEmail, isStrongPassword);
      && (IsBlank(f.username) ==> Violation("username", UsernameBlank) in vs)
      && (IsBlank(f.password) ==> Violation("password", PasswordBlank) in vs)
      && (IsBlank(f.name) ==> Violation("name", NameBlank) in vs)
      && (IsBlank(f.surname) ==> Violation("surname", SurnameBlank) in vs)
      && (IsBlank(f.email) ==> Violation("email", EmailBlank) in vs)
      && (!f.hasClient ==> Violation("client", ClientBlank) in vs)
  {
    var u, p, n, s, e, c := UsernameViolations(f), PasswordViolations(f, isStrongPassword),
      NameViolations(f), SurnameViolations(f), EmailViolations(f, isEmail), ClientViolations(f);
    var a1 := u + p;
    var a2 := a1 + n;
    var a3 := a2 + s;
    var a4 := a3 + e;
    var vs := a4 + c;
    assert vs == ValidateUser(f, isEmail, isStrongPassword);
    assert forall v :: v in u || v in p ==> v in a1;
    assert forall v :: v in a1 || v in n ==> v in a2;
    assert forall v :: v in a2 || v in s ==> v in a3;
    assert forall v :: v in a3 || v in e ==> v in a4;
    assert forall v :: v in a4 ==> v in vs;
    assert !f.hasClient ==> c == [Violation("client", ClientBlank)];
  }

  /** Every violation names one of the six constrained properties. */
  lemma ViolationPathsAreProperties(f: UserFields, isEmail: string -> bool,
                                    isStrongPassword: string -> bool)
    ensures forall v :: v in ValidateUser(f, isEmail, isStrongPassword) ==>
      v.propertyPath in {"username", "password", "name", "surname", "email", "client"}
  {
    var u, p, n, s, e, c := UsernameViolations(f), PasswordViolations(f, isStrongPassword),
      NameViolations(f), SurnameViolations(f), EmailViolations(f, isEmail), ClientViolations(f);
    var a1 := u + p;
    var a2 := a1 + n;
    var a3 := a2 + s;
    var a4 := a3 + e;
    assert forall v: Violation :: v in a1 ==> v.propertyPath in {"username", "password"};
    assert forall v: Violation :: v in a2 ==> v.propertyPath in {"username", "password", "name"};
    assert forall v: Violation :: v in a3 ==> v.propertyPath in {"username", "password", "name", "surname"};
    assert forall v: Violation :: v in a4 ==>
      v.propertyPath in {"username", "password", "name", "surname", "email"};
    assert ValidateUser(f, isEmail, isStrongPassword) == a4 + c;
  }
}
