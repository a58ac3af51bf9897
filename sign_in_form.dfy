/**
  The client-side sign-in schema: an email check and the same password chain as the
  registration form, written out again.
 */
module SignInForm {
  import opened Wrappers
  import opened Zod
  import Text
  import RegisterForm

  /** `[@$!%*?&]`. */
  predicate Special(c: char) { c in "@$!%*?&" }

  function Email(isEmail: string -> bool): seq<Check> {
    [Satisfies(isEmail, "Invalid email address")]
  }

  const PASSWORD: seq<Check> := [
    Min(8, "Password must be at least 8 characters"),
    Max(24, "Password too long"),
    Regex(Somewhere(Text.IsUpper), "Must include at least one uppercase letter"),
    Regex(Somewhere(Text.IsLower), "Must include at least one lowercase letter"),
    Regex(Somewhere(Text.IsDigit), "Must include at least one number"),
    Regex(Somewhere(Special), "Must include one special character")]

  datatype Values = Values(email: string, password: string)

  function Issues(v: Values, isEmail: string -> bool): seq<Issue> {
    OnPath("email", Failures(v.email, Email(isEmail))) + OnPath("password", Failures(v.password, PASSWORD))
  }

  predicate Submits(v: Values, isEmail: string -> bool) {
    Issues(v, isEmail) == []
  }

  // ---------------------------------------------------------------------------
  // Properties
  // ---------------------------------------------------------------------------

  /** The sign-in form submits exactly when the email passes and the password is 8 to 24
      UTF-16 code units with an upper-case letter, a lower-case letter, a digit and one of
      `@$!%*?&`. */
  lemma SubmitsIff(v: Values, isEmail: string -> bool)
    ensures Submits(v, isEmail) <==>
      && isEmail(v.email) && 8 <= Text.Utf16Length(v.password) <= 24
      && Text.Contains(v.password, Text.IsUpper) && Text.Contains(v.password, Text.IsLower)
      && Text.Contains(v.password, Text.IsDigit) && Text.Contains(v.password, Special)
  {
    var p := v.password;
    FailuresEmptyIff(v.email, Email(isEmail));
    assert Passes(v.email, Email(isEmail)[0]) <==> isEmail(v.email);
    FailuresEmptyIff(p, PASSWORD);
    assert Passes(p, PASSWORD[0]) <==> Text.Utf16Length(p) >= 8;
    assert Passes(p, PASSWORD[1]) <==> Text.Utf16Length(p) <= 24;
    assert Passes(p, PASSWORD[2]) <==> Text.Contains(p, Text.IsUpper);
    assert Passes(p, PASSWORD[3]) <==> Text.Contains(p, Text.IsLower);
    assert Passes(p, PASSWORD[4]) <==> Text.Contains(p, Text.IsDigit);
    assert Passes(p, PASSWORD[5]) <==> Text.Contains(p, Special);
  }

  /** The two forms judge a password alike and report the same messages for it, so a
      password the registration form accepts passes at sign-in, and the other way round. */
  lemma PasswordChainsAgree(p: string)
    ensures Failures(p, PASSWORD) == Failures(p, RegisterForm.PASSWORD)
    ensures Failures(p, PASSWORD) == [] <==> Failures(p, RegisterForm.PASSWORD) == []
  {
    assert Text.Contains(p, Special) <==> Text.Contains(p, RegisterForm.Special);
    assert forall i :: 0 <= i < 6 ==> PASSWORD[i].message == RegisterForm.PASSWORD[i].message;
    assert Passes(p, PASSWORD[5]) <==> Passes(p, RegisterForm.PASSWORD[5]);
    FailuresAgree(p, PASSWORD, RegisterForm.PASSWORD);
  }

  /** Registration and sign-in agree on the email too: a registered form's email and
      password pass the sign-in form. */
  lemma RegisteredCredentialsSignIn(v: RegisterForm.Values, isEmail: string -> bool)
    requires RegisterForm.Submits(v, isEmail)
    ensures Submits(Values(v.email, v.password), isEmail)
  {
    RegisterForm.SubmitsIff(v, isEmail);
    PasswordChainsAgree(v.password);
    FailuresEmptyIff(v.email, Email(isEmail));
    assert Passes(v.email, Email(isEmail)[0]) <==> isEmail(v.email);
  }
}
