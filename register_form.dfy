/** The registration form: the validity of the name, the email (shape and provider domain) and
    the password, and `handleRegister`, which reports empty fields first, then invalid ones,
    and otherwise sends the trimmed name and email with the password as typed. */
module RegisterForm {
  import opened Strings

  /** The provider domains a new account may use. */
  const ALLOWED_DOMAINS: seq<string> := [
    "gmail.com", "hotmail.com", "outlook.com", "yahoo.com", "ymail.com", "aol.com", "icloud.com",
    "protonmail.com"]

  /** The punctuation a password needs one of. */
  const SPECIAL_CHARS: string := "!@#$%^&*()_+-=[]{};':\"\\|,.<>/?`~"

  /** The fields of the form, as the messages name them. */
  datatype Field = Nombre | Email | Contrasena

  function FieldName(f: Field): string
  {
    match f
    case Nombre => "nombre"
    case Email => "email"
    case Contrasena => "contrase\U{00F1}a"
  }

  /** The name has at least three characters once trimmed. */
  predicate NameValid(name: string)
  {
    |Trim(name)| >= 3
  }

  /** `[^\s@]`: a character that is neither white space nor "@". */
  predicate PlainChar(c: char)
  {
    !IsSpace(c) && c != '@'
  }

  /** `[^\s@]+`. */
  predicate Plain(s: string)
  {
    s != [] && forall i :: 0 <= i < |s| ==> PlainChar(s[i])
  }

  /** The part of the address after "@" in `/^[^\s@]+@[^\s@]+\.[^\s@]+$/`: plain characters
      with a dot that is neither the first nor the last. */
  predicate DomainShaped(d: string)
  {
    Plain(d) && exists k :: 0 < k < |d| - 1 && d[k] == '.'
  }

  /** `e` is a plain local part, the "@" at `at`, and a dotted plain domain. */
  predicate ShapedAt(e: string, at: int)
  {
    0 < at < |e| && e[at] == '@' && Plain(e[..at]) && DomainShaped(e[at + 1..])
  }

  /** `/^[^\s@]+@[^\s@]+\.[^\s@]+$/.test(e)`. */
  predicate EmailShaped(e: string)
  {
    exists at :: 0 < at < |e| && ShapedAt(e, at)
  }

  /** `e.split("@")[1]`, or "" when there is no second part. */
  function EmailDomain(e: string): string
  {
    var parts := Split(e, '@');
    if |parts| >= 2 then parts[1] else ""
  }

  /** The domain check runs only on a well-shaped address, and an empty domain passes it. */
  predicate EmailDomainValid(e: string)
  {
    EmailShaped(e) && ToLower(EmailDomain(e)) != "" ==> ToLower(EmailDomain(e)) in ALLOWED_DOMAINS
  }

  /** `emailValidRegister`, evaluated on the trimmed address. */
  predicate EmailValidRegister(email: string)
  {
    EmailShaped(Trim(email)) && EmailDomainValid(Trim(email))
  }

  /** A well-shaped address has exactly one "@", so `split("@")` gives the local part and the
      domain. */
  lemma ShapedSplit(e: string, at: int)
    requires ShapedAt(e, at)
    ensures Split(e, '@') == [e[..at], e[at + 1..]]
  {
    var local, domain := e[..at], e[at + 1..];
    assert e == local + ['@'] + domain;
    SplitAfterPart(local, '@', domain);
    SplitNoSeparator(domain, '@');
  }

  /** On an address shaped around `at`, the domain check looks at the text after `at`. */
  lemma DomainValidAt(e: string, at: int)
    requires ShapedAt(e, at)
    ensures EmailDomainValid(e) <==> ToLower(e[at + 1..]) in ALLOWED_DOMAINS
  {
    ShapedSplit(e, at);
    assert EmailDomain(e) == e[at + 1..];
    assert |ToLower(e[at + 1..])| > 0;
  }

  /** A registration address is valid exactly when, once trimmed, it is a plain local part,
      "@", and a dotted plain domain whose lower-case form is an allowed provider. */
  lemma EmailValidIff(email: string)
    ensures EmailValidRegister(email) <==>
      exists at :: ShapedAt(Trim(email), at) && ToLower(Trim(email)[at + 1..]) in ALLOWED_DOMAINS
  {
    var e := Trim(email);
    if EmailValidRegister(email) {
      var at :| 0 < at < |e| && ShapedAt(e, at);
      DomainValidAt(e, at);
      assert ShapedAt(e, at) && ToLower(e[at + 1..]) in ALLOWED_DOMAINS;
    }
    if exists at :: ShapedAt(e, at) && ToLower(e[at + 1..]) in ALLOWED_DOMAINS {
      var at :| ShapedAt(e, at) && ToLower(e[at + 1..]) in ALLOWED_DOMAINS;
      DomainValidAt(e, at);
      assert EmailShaped(e);
    }
  }

  predicate IsDigitChar(c: char) { '0' <= c <= '9' }

  predicate IsUpperChar(c: char) { 'A' <= c <= 'Z' }

  /** At least eight characters, among them a digit, an upper-case letter and one of the
      special characters. */
  predicate PasswordValid(pw: string)
  {
    && |pw| >= 8
    && (exists i :: 0 <= i < |pw| && IsDigitChar(pw[i]))
    && (exists i :: 0 <= i < |pw| && IsUpperChar(pw[i]))
    && (exists i :: 0 <= i < |pw| && pw[i] in SPECIAL_CHARS)
  }

  /** The fields whose flag is set, in form order. */
  function Listed(nombre: bool, email: bool, contrasena: bool): seq<Field>
  {
    (if nombre then [Nombre] else []) + (if email then [Email] else []) + (if contrasena then [Contrasena] else [])
  }

  /** A field list is built by pushing the flagged fields one after another. */
  lemma ListedSteps(nombre: bool, email: bool, contrasena: bool)
    ensures Listed(nombre, false, false) == if nombre then [] + [Nombre] else []
    ensures Listed(nombre, email, false)
         == if email then Listed(nombre, false, false) + [Email] else Listed(nombre, false, false)
    ensures Listed(nombre, email, contrasena)
         == if contrasena then Listed(nombre, email, false) + [Contrasena] else Listed(nombre, email, false)
  {
  }

  /** The fields left empty. */
  function EmptyFields(name: string, email: string, password: string): seq<Field>
  {
    Listed(Trim(name) == "", Trim(email) == "", password == "")
  }

  /** The fields that fail their check. */
  function InvalidFields(name: string, email: string, password: string): seq<Field>
  {
    Listed(!NameValid(name), !EmailValidRegister(email), !PasswordValid(password))
  }

  /** The position of a field in the form. */
  function FieldRank(f: Field): nat
  {
    match f
    case Nombre => 0
    case Email => 1
    case Contrasena => 2
  }

  /** The fields are listed in the order nombre, email, contraseña, none twice. */
  predicate InFormOrder(fields: seq<Field>)
  {
    forall i, j :: 0 <= i < j < |fields| ==> FieldRank(fields[i]) < FieldRank(fields[j])
  }

  /** A field list names each field exactly when its flag is set, in form order; it is empty
      exactly when no flag is set. */
  lemma ListedInOrder(nombre: bool, email: bool, contrasena: bool)
    ensures var f := Listed(nombre, email, contrasena);
      && InFormOrder(f)
      && (Nombre in f <==> nombre) && (Email in f <==> email) && (Contrasena in f <==> contrasena)
      && (f == [] <==> !nombre && !email && !contrasena)
  {
    var f := Listed(nombre, email, contrasena);
    assert Nombre in f <==> nombre;
  }

  /** A form whose every field passes its check has no empty field. */
  lemma ValidHasNoEmpty(name: string, email: string, password: string)
    requires InvalidFields(name, email, password) == []
    ensures EmptyFields(name, email, password) == []
  {
    assert NameValid(name) && EmailValidRegister(email) && PasswordValid(password);
    var e := Trim(email);
    var at :| 0 < at < |e| && ShapedAt(e, at);
  }

  /** The message for empty fields: all three, a pair, or one. */
  function EmptyMessage(fields: seq<Field>): string
    requires fields != []
  {
    if |fields| == 3 then "campos vac\U{00ED}os, favor de llenarlos"
    else if |fields| == 2 then FieldName(fields[0]) + " y " + FieldName(fields[1]) + " vac\U{00ED}os, favor de llenarlos"
    else FieldName(fields[0]) + " vac\U{00ED}o, favor de llenarlo"
  }

  /** The message for invalid fields: all three, a pair, or one. */
  function InvalidMessage(fields: seq<Field>): string
    requires fields != []
  {
    if |fields| == 3 then "campos inv\U{00E1}lidos, favor de corregirlos"
    else if |fields| == 2 then FieldName(fields[0]) + " y " + FieldName(fields[1]) + " inv\U{00E1}lidos, favor de corregirlos"
    else FieldName(fields[0]) + " inv\U{00E1}lido, favor de corregirlo"
  }

  /** The `errors.push` sequence of the form: the flagged fields pushed one after another. */
  method CollectFields(nombre: bool, email: bool, contrasena: bool) returns (fields: seq<Field>)
    ensures fields == Listed(nombre, email, contrasena)
  {
    ListedSteps(nombre, email, contrasena);
    fields := [];
    if nombre {
      fields := fields + [Nombre];
    }
    if email {
      fields := fields + [Email];
    }
    if contrasena {
      fields := fields + [Contrasena];
    }
  }

  /** The body of the registration request. */
  datatype RegisterRequest = RegisterRequest(name: string, email: string, password: string)

  /** What a submission leads to: an error notice, or the request that is sent. */
  datatype RegisterOutcome = Rejected(message: string) | Submitted(request: RegisterRequest)

  /** `handleRegister`, up to sending the request: the empty fields are collected and reported
      first; then the invalid ones; a request is sent only when every field is valid. */
  method HandleRegister(name: string, email: string, password: string) returns (r: RegisterOutcome)
    ensures var empty := EmptyFields(name, email, password);
      empty != [] ==> r == Rejected(EmptyMessage(empty))
    ensures var invalid := InvalidFields(name, email, password);
      EmptyFields(name, email, password) == [] && invalid != [] ==> r == Rejected(InvalidMessage(invalid))
    ensures r.Submitted? <==> InvalidFields(name, email, password) == []
    ensures r.Submitted? ==> r.request == RegisterRequest(Trim(name), Trim(email), password)
  {
    var nameValid, emailValid, pwAllValid := NameValid(name), EmailValidRegister(email), PasswordValid(password);
    if nameValid && emailValid && pwAllValid {
      ValidHasNoEmpty(name, email, password);
    }
    var errors := CollectFields(Trim(name) == "", Trim(email) == "", password == "");
    if |errors| > 0 {
      return Rejected(EmptyMessage(errors));
    }
    var fieldErrors := CollectFields(!nameValid, !emailValid, !pwAllValid);
    ListedInOrder(!nameValid, !emailValid, !pwAllValid);
    if |fieldErrors| > 0 {
      return Rejected(InvalidMessage(fieldErrors));
    }
    r := Submitted(RegisterRequest(Trim(name), Trim(email), password));
  }
}
