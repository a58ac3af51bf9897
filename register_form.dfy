/**
  The client-side registration schema: the username, email, password and confirmation
  checks with their messages, the cross-field check that the confirmation matches
  (reported on `confirmPassword`), and the body posted to the registration route, which
  leaves the confirmation out.
 */
module RegisterForm {
  import opened Wrappers
  import opened Zod
  import Text
  import RegisterController

  /** `[a-zA-Z]`, the class of the username's first character. */
  predicate UsernameHead(c: char) { Text.IsLetter(c) }

  /** `[a-zA-Z0-9-_]`: the `-` after the range `0-9` is a literal. */
  predicate UsernameTail(c: char) { Text.IsLetter(c) || Text.IsDigit(c) || c == '-' || c == '_' }

  /** `[@$!%*?&]`. */
  predicate Special(c: char) { c in "@$!%*?&" }

  const USERNAME_SHORT: string := "Username must be at least 4 characters"
  const USERNAME_LONG: string := "Username too long"
  const USERNAME_FORMAT: string := "Invalid username format"
  const INVALID_EMAIL: string := "Invalid email address"
  const PASSWORD_SHORT: string := "Password must be at least 8 characters"
  const PASSWORD_LONG: string := "Password too long"
  const NEEDS_UPPER: string := "Must include at least one uppercase letter"
  const NEEDS_LOWER: string := "Must include at least one lowercase letter"
  const NEEDS_DIGIT: string := "Must include at least one number"
  const NEEDS_SPECIAL: string := "Must include one special character"

  const USERNAME: seq<Check> := [
    Min(4, USERNAME_SHORT), Max(24, USERNAME_LONG), Regex(Whole(UsernameHead, UsernameTail), USERNAME_FORMAT)]

  function Email(isEmail: string -> bool): seq<Check> {
    [Satisfies(isEmail, INVALID_EMAIL)]
  }

  const PASSWORD: seq<Check> := [
    Min(8, PASSWORD_SHORT), Max(24, PASSWORD_LONG),
    Regex(Somewhere(Text.IsUpper), NEEDS_UPPER), Regex(Somewhere(Text.IsLower), NEEDS_LOWER),
    Regex(Somewhere(Text.IsDigit), NEEDS_DIGIT), Regex(Somewhere(Special), NEEDS_SPECIAL)]

  const MISMATCH: string := "Passwords do not match"

  /** The form's four text inputs. */
  datatype Values = Values(username: string, email: string, password: string, confirmPassword: string)

  /** The issues in the order zod reports them: the fields in declaration order, then the
      refinement, which runs even when a field check has failed. */
  function Issues(v: Values, isEmail: string -> bool): seq<Issue> {
    OnPath("username", Failures(v.username, USERNAME))
    + OnPath("email", Failures(v.email, Email(isEmail)))
    + OnPath("password", Failures(v.password, PASSWORD))
    + (if v.password == v.confirmPassword then [] else [Issue("confirmPassword", MISMATCH)])
  }

  /** The form submits when the schema reports no issue. */
  predicate Submits(v: Values, isEmail: string -> bool) {
    Issues(v, isEmail) == []
  }

  /** The body posted to `/auth/register`. */
  function Payload(v: Values): RegisterController.RegisterRequest {
    RegisterController.RegisterRequest(v.username, v.email, v.password)
  }

  // ---------------------------------------------------------------------------
  // Properties
  // ---------------------------------------------------------------------------

  predicate UsernameChecksPass(u: string) {
    Passes(u, USERNAME[0]) && Passes(u, USERNAME[1]) && Passes(u, USERNAME[2])
  }

  lemma UsernameChecksPassIff(u: string)
    ensures Failures(u, USERNAME) == [] <==> UsernameChecksPass(u)
  {
    FailuresEmptyIff(u, USERNAME);
    if UsernameChecksPass(u) {
      forall i | 0 <= i < |USERNAME| ensures Passes(u, USERNAME[i]) {
        if i == 0 {} else if i == 1 {} else {}
      }
    }
  }

  /** The username chain passes exactly for 4 to 24 characters, a leading ASCII letter and
      then only letters, digits, `-` and `_`. Such a name is all ASCII, so its UTF-16
      length is its number of characters. */
  lemma UsernameRule(u: string)
    ensures Failures(u, USERNAME) == [] <==>
      && 4 <= |u| <= 24 && Text.IsLetter(u[0])
      && forall i :: 1 <= i < |u| ==> UsernameTail(u[i])
    ensures Failures(u, USERNAME) == [] ==> Text.Utf16Length(u) == |u|
  {
    UsernameChecksPassIff(u);
    if UsernameChecksPass(u) {
      UsernamePassesHasShape(u);
      UsernameIsAscii(u);
    }
    if 4 <= |u| <= 24 && Text.IsLetter(u[0]) && forall i :: 1 <= i < |u| ==> UsernameTail(u[i]) {
      UsernameShapePasses(u);
    }
  }

  lemma UsernamePassesHasShape(u: string)
    requires UsernameChecksPass(u)
    ensures 4 <= |u| <= 24 && Text.IsLetter(u[0]) && forall i :: 1 <= i < |u| ==> UsernameTail(u[i])
  {
    assert |u| > 0;
    AllCharsIff(u[1..], UsernameTail);
    assert forall i :: 1 <= i < |u| ==> u[i] == u[1..][i - 1];
    UsernameIsAscii(u);
  }

  lemma UsernameShapePasses(u: string)
    requires 4 <= |u| <= 24 && Text.IsLetter(u[0]) && forall i :: 1 <= i < |u| ==> UsernameTail(u[i])
    ensures UsernameChecksPass(u)
  {
    AllCharsIff(u[1..], UsernameTail);
    assert forall i :: 1 <= i < |u| ==> u[i] == u[1..][i - 1];
    UsernameIsAscii(u);
  }

  lemma UsernameIsAscii(u: string)
    requires |u| > 0 && Text.IsLetter(u[0]) && forall i :: 1 <= i < |u| ==> UsernameTail(u[i])
    ensures Text.Utf16Length(u) == |u|
  {
    assert forall i :: 0 <= i < |u| ==> !Text.IsAstral(u[i]) by {
      forall i | 0 <= i < |u| ensures !Text.IsAstral(u[i]) {
        if i > 0 { assert UsernameTail(u[i]); }
      }
    }
    Text.Utf16LengthNoAstral(u);
  }

  predicate PasswordChecksPass(p: string) {
    && Passes(p, PASSWORD[0]) && Passes(p, PASSWORD[1]) && Passes(p, PASSWORD[2])
    && Passes(p, PASSWORD[3]) && Passes(p, PASSWORD[4]) && Passes(p, PASSWORD[5])
  }

  lemma PasswordChecksPassIff(p: string)
    ensures Failures(p, PASSWORD) == [] <==> PasswordChecksPass(p)
  {
    FailuresEmptyIff(p, PASSWORD);
    if PasswordChecksPass(p) {
      forall i | 0 <= i < |PASSWORD| ensures Passes(p, PASSWORD[i]) {
        if i == 0 {} else if i == 1 {} else if i == 2 {} else if i == 3 {} else if i == 4 {} else {}
      }
    }
  }

  /** The password chain passes exactly for 8 to 24 UTF-16 code units with an upper-case
      letter, a lower-case letter, a digit and one of `@$!%*?&`. */
  lemma PasswordRule(p: string)
    ensures Failures(p, PASSWORD) == [] <==>
      && 8 <= Text.Utf16Length(p) <= 24
      && Text.Contains(p, Text.IsUpper) && Text.Contains(p, Text.IsLower)
      && Text.Contains(p, Text.IsDigit) && Text.Contains(p, Special)
  {
    PasswordChecksPassIff(p);
  }

  /** Lengths are code units, not characters: six characters, two of them outside the
      Basic Multilingual Plane, make a password long enough. */
  lemma AstralPasswordLongEnough()
    ensures Failures("Aa1!\U{1F600}\U{1F600}", PASSWORD) == []
  {
    var p := "Aa1!\U{1F600}\U{1F600}";
    assert |p| == 6 && Text.Utf16Length(p) == 8;
    assert Text.IsUpper(p[0]) && Text.IsLower(p[1]) && Text.IsDigit(p[2]) && Special(p[3]);
    PasswordRule(p);
  }

  /** The form submits exactly when every field passes its chain and the confirmation
      equals the password. */
  lemma SubmitsIff(v: Values, isEmail: string -> bool)
    ensures Submits(v, isEmail) <==>
      && Failures(v.username, USERNAME) == [] && isEmail(v.email)
      && Failures(v.password, PASSWORD) == [] && v.password == v.confirmPassword
  {
    FailuresEmptyIff(v.email, Email(isEmail));
    assert Passes(v.email, Email(isEmail)[0]) <==> isEmail(v.email);
  }

  /** What appears under each input: the message of its first failing check, and under
      the confirmation the mismatch message exactly when the two passwords differ. */
  lemma ShownMessages(v: Values, isEmail: string -> bool)
    ensures var issues := Issues(v, isEmail);
      var fu := Failures(v.username, USERNAME);
      var fp := Failures(v.password, PASSWORD);
      && Shown(issues, "username") == (if fu == [] then None else Some(fu[0]))
      && Shown(issues, "password") == (if fp == [] then None else Some(fp[0]))
      && Shown(issues, "confirmPassword") == (if v.password == v.confirmPassword then None else Some(MISMATCH))
  {
    ShownOn(v, isEmail, "username");
    ShownOn(v, isEmail, "password");
    ShownOn(v, isEmail, "confirmPassword");
  }

  /** The message under the input at `path`, as the issues on the other paths leave it. */
  lemma ShownOn(v: Values, isEmail: string -> bool, path: string)
    requires path in ["username", "password", "confirmPassword"]
    ensures var fu := Failures(v.username, USERNAME);
      var fp := Failures(v.password, PASSWORD);
      Shown(Issues(v, isEmail), path) ==
        if path == "username" then (if fu == [] then None else Some(fu[0]))
        else if path == "password" then (if fp == [] then None else Some(fp[0]))
        else (if v.password == v.confirmPassword then None else Some(MISMATCH))
  {
    var fu := Failures(v.username, USERNAME);
    var fe := Failures(v.email, Email(isEmail));
    var fp := Failures(v.password, PASSWORD);
    var u := OnPath("username", fu);
    var e := OnPath("email", fe);
    var p := OnPath("password", fp);
    var c := OnPath("confirmPassword", if v.password == v.confirmPassword then [] else [MISMATCH]);
    assert Issues(v, isEmail) == u + e + p + c;
    ShownAppend(u + e + p, c, path);
    ShownAppend(u + e, p, path);
    ShownAppend(u, e, path);
    ShownOnPath("username", fu, path);
    ShownOnPath("email", fe, path);
    ShownOnPath("password", fp, path);
    ShownOnPath("confirmPassword", if v.password == v.confirmPassword then [] else [MISMATCH], path);
  }

  /** The posted body does not depend on the confirmation, and carries the three other
      inputs unchanged. */
  lemma PayloadDropsConfirmation(v: Values, other: string)
    ensures Payload(v.(confirmPassword := other)) == Payload(v)
    ensures Payload(v).username == v.username && Payload(v).email == v.email && Payload(v).password == v.password
  {
  }

  /** A body the form submits never meets the server's 400 for a missing field, as long
      as the email check refuses the empty string. */
  lemma SubmittedHasAllFields(v: Values, isEmail: string -> bool)
    requires !isEmail("")
    requires Submits(v, isEmail)
    ensures !RegisterController.MissingFields(Payload(v))
  {
    SubmitsIff(v, isEmail);
    UsernameRule(v.username);
    PasswordRule(v.password);
  }
}
