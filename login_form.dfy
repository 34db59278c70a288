/** The login form: `handleLogin` reports empty fields, then a malformed email, and otherwise
    sends the email and password as typed; after a successful answer it keeps the user's email,
    a display name (the part of the email before "@") and the role, when the answer has one. */
module LoginForm {
  import opened Wrappers
  import opened Strings
  import opened Schema
  import opened RegisterForm

  const INVALID_EMAIL: string := "Email inv\U{00E1}lido, favor de corregirlo"

  const BAD_CREDENTIALS: string := "Credenciales inv\U{00E1}lidas, verifica tu correo y contrase\U{00F1}a"

  /** The fields left empty: the email (once trimmed) and the password. */
  function LoginEmptyFields(email: string, password: string): seq<Field>
  {
    Listed(false, Trim(email) == "", password == "")
  }

  /** The message for empty fields: both, or the one. */
  function LoginEmptyMessage(fields: seq<Field>): string
    requires fields != []
  {
    if |fields| == 2 then "email y contrase\U{00F1}a vac\U{00ED}os, favor de llenarlos"
    else FieldName(fields[0]) + " vac\U{00ED}o, favor de llenarlo"
  }

  /** What a submission leads to: an error notice, or the request with its `identifier`. */
  datatype LoginOutcome = LoginRejected(message: string) | LoginSubmitted(identifier: string, password: string)

  /** `handleLogin`, up to sending the request. */
  method HandleLogin(email: string, password: string) returns (r: LoginOutcome)
    ensures var empty := LoginEmptyFields(email, password);
      empty != [] ==> r == LoginRejected(LoginEmptyMessage(empty))
    ensures LoginEmptyFields(email, password) == [] && !EmailShaped(Trim(email)) ==> r == LoginRejected(INVALID_EMAIL)
    ensures r.LoginSubmitted? <==> password != "" && EmailShaped(Trim(email))
    ensures r.LoginSubmitted? ==> r.identifier == email && r.password == password
  {
    var emailFormatValid := EmailShaped(Trim(email));
    if emailFormatValid {
      ShapedNotBlank(Trim(email));
    }
    var errors := CollectFields(false, Trim(email) == "", password == "");
    ListedInOrder(false, Trim(email) == "", password == "");
    if |errors| > 0 {
      return LoginRejected(LoginEmptyMessage(errors));
    }
    if !emailFormatValid {
      return LoginRejected(INVALID_EMAIL);
    }
    r := LoginSubmitted(email, password);
  }

  /** A well-shaped address is not blank. */
  lemma ShapedNotBlank(e: string)
    requires EmailShaped(e)
    ensures e != ""
  {
  }

  /** The user record kept after signing in. */
  datatype StoredUser = StoredUser(email: string, name: string, role: Option<string>)

  /** What the answer to the request leads to. */
  datatype LoginResult = LoginFailed(message: string) | SignedIn(user: StoredUser)

  /** The answer to the request: a refusal is reported; otherwise the user is stored with the
      email as typed, `email.split("@")[0]` as the name, and the role only when it is truthy. */
  function AfterLogin(email: string, ok: bool, role: Option<string>): (r: LoginResult)
    ensures r.LoginFailed? <==> !ok
    ensures r.LoginFailed? ==> r.message == BAD_CREDENTIALS
    ensures r.SignedIn? ==> r.user.email == email && (r.user.role.Some? <==> Present(role))
  {
    if !ok then LoginFailed(BAD_CREDENTIALS)
    else SignedIn(StoredUser(email, Split(email, '@')[0], if Present(role) then role else None))
  }

  /** The stored name is the part of the email before its first "@", or the whole email when it
      has none. */
  lemma StoredNameBeforeAt(local: string, rest: string, role: Option<string>)
    requires '@' !in local
    ensures AfterLogin(local + "@" + rest, true, role).user.name == local
    ensures AfterLogin(local, true, role).user.name == local
  {
    SplitAfterPart(local, '@', rest);
    SplitNoSeparator(local, '@');
  }
}
