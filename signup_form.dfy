/** The sign-up form of src/components/auth/SignupForm.tsx: the password
    rule, the order of the submit checks, the loading flag around the
    sign-up call, and the predicates that drive the button and the
    mismatch message. The call itself is the `reply` parameter. */
module SignupForm {
  import opened Wrappers

  /** The shortest password accepted. */
  const MIN_PASSWORD_LENGTH: int := 6

  datatype Fields = Fields(email: string, password: string, confirmPassword: string, displayName: string)

  datatype SignupError = MissingFields | PasswordsDiffer | PasswordTooShort

  /** The arguments of the sign-up call; an empty display name is passed
      as `undefined`. */
  datatype SignUpRequest = SignUpRequest(email: string, password: string, displayName: Option<string>)

  /** `validatePassword`: an error text exactly for passwords shorter than six. */
  function ValidatePassword(password: string): (error: Option<string>)
    ensures error.Some? <==> |password| < MIN_PASSWORD_LENGTH
    ensures error.Some? ==> error.value != ""
  {
    if |password| < MIN_PASSWORD_LENGTH then Some("Password must be at least 6 characters long") else None
  }

  /** The checks of `handleSubmit`, first failure winning: a required field
      empty, then the passwords differ, then the password is too short. */
  function CheckSubmission(f: Fields): (r: Result<SignUpRequest, SignupError>)
    ensures r == Failure(MissingFields) <==> f.email == "" || f.password == "" || f.confirmPassword == ""
    ensures r == Failure(PasswordsDiffer) <==>
      f.email != "" && f.password != "" && f.confirmPassword != "" && f.password != f.confirmPassword
    ensures r == Failure(PasswordTooShort) <==>
      f.email != "" && f.password != "" && f.confirmPassword != "" && f.password == f.confirmPassword
      && |f.password| < MIN_PASSWORD_LENGTH
    ensures r.Success? ==>
      r.value.email == f.email && r.value.password == f.password
      && (r.value.displayName.None? <==> f.displayName == "")
      && (r.value.displayName.Some? ==> r.value.displayName.value == f.displayName)
  {
    if f.email == "" || f.password == "" || f.confirmPassword == "" then Failure(MissingFields)
    else if f.password != f.confirmPassword then Failure(PasswordsDiffer)
    else if ValidatePassword(f.password).Some? then Failure(PasswordTooShort)
    else Success(SignUpRequest(f.email, f.password, if f.displayName == "" then None else Some(f.displayName)))
  }

  /** The inline password error is shown for a non-empty short password. */
  predicate PasswordErrorShown(f: Fields)
    ensures PasswordErrorShown(f) ==> CheckSubmission(f).Failure?
  {
    f.password != "" && ValidatePassword(f.password).Some?
  }

  /** The mismatch message is shown once a confirmation is typed that
      differs from the password. */
  predicate MismatchShown(f: Fields)
    ensures MismatchShown(f) ==> CheckSubmission(f).Failure?
  {
    f.confirmPassword != "" && f.password != f.confirmPassword
  }

  /** The submit button is disabled while loading, with the inline password
      error, or with a typed confirmation that differs. */
  predicate SubmitDisabled(f: Fields, loading: bool)
    ensures !loading ==> (SubmitDisabled(f, loading) <==> PasswordErrorShown(f) || MismatchShown(f))
  {
    loading || PasswordErrorShown(f) || (f.password != f.confirmPassword && |f.confirmPassword| > 0)
  }

  /** The button and the checks agree: with every required field filled
      and nothing loading, the button is enabled exactly when the checks
      pass; the disabled predicate is the mismatch message or the
      password error. */
  lemma ButtonAgreesWithChecks(f: Fields)
    ensures f.email != "" && f.password != "" && f.confirmPassword != "" ==>
      (!SubmitDisabled(f, false) <==> CheckSubmission(f).Success?)
    ensures SubmitDisabled(f, false) <==> PasswordErrorShown(f) || MismatchShown(f)
  {
  }

  class Form {
    var fields: Fields
    var loading: bool
    var navigatedHome: bool

    constructor ()
      ensures fields == Fields("", "", "", "") && !loading && !navigatedHome
    {
      fields := Fields("", "", "", "");
      loading := false;
      navigatedHome := false;
    }

    method Edit(f: Fields)
      modifies this`fields
      ensures fields == f
    {
      fields := f;
    }

    /** The first half of `handleSubmit`: on a failed check nothing changes
        and no call is made; otherwise loading is set and the call's
        arguments are returned. */
    method BeginSubmit() returns (request: Option<SignUpRequest>)
      modifies this`loading
      ensures CheckSubmission(fields).Failure? ==> request.None? && loading == old(loading)
      ensures CheckSubmission(fields).Success? ==> request == Some(CheckSubmission(fields).value) && loading
    {
      if fields.email == "" || fields.password == "" || fields.confirmPassword == "" {
        return None;
      }
      if fields.password != fields.confirmPassword {
        return None;
      }
      var passwordError := ValidatePassword(fields.password);
      if passwordError.Some? {
        return None;
      }
      loading := true;
      request := Some(SignUpRequest(fields.email, fields.password,
                                    if fields.displayName == "" then None else Some(fields.displayName)));
    }

    /** The second half: with the call's outcome, loading is cleared either
        way and a success navigates home. */
    method FinishSubmit(reply: Result<(), string>)
      modifies this`loading, this`navigatedHome
      ensures !loading
      ensures navigatedHome == (old(navigatedHome) || reply.Success?)
    {
      if reply.Success? {
        navigatedHome := true;
      }
      loading := false;
    }
  }
}
