/**
 * The request schemas of the authentication module (REGISTER, VALIDATEUSER,
 * LOGIN), the typed requests they produce, and the acceptance rule of each
 * schema stated field by field and proved equivalent to parsing.
 */
module AuthValidation {
  import opened Wrappers
  import opened Errors
  import opened Zod

  const NameEmpty := "Nama tidak boleh kosong."
  const EmailInvalid := "Masukan alamat email yang valid."
  const PasswordTooShort := "Kata sandi diperlukan. Minimal 8 karakter."
  const PasswordWrong := "Kata sandi salah."
  const PasswordNoUpper := "Kata sandi harus mengandung setidaknya satu huruf kapital."
  const PasswordNoDigit := "Kata sandi harus mengandung setidaknya satu angka."

  const NameChecks: seq<StringCheck> := [Min(1, Some(NameEmpty)), Max(100, None)]

  const RegisterPasswordChecks: seq<StringCheck> :=
    [Min(8, Some(PasswordTooShort)), Matches(UpperAZ, Some(PasswordNoUpper)),
     Matches(Digit09, Some(PasswordNoDigit)), Max(100, None)]

  const LoginPasswordChecks: seq<StringCheck> :=
    [Min(8, Some(PasswordWrong)), Matches(UpperAZ, Some(PasswordNoUpper)),
     Matches(Digit09, Some(PasswordNoDigit)), Max(100, None)]

  const NonEmpty: seq<StringCheck> := [Min(1, None)]

  const REGISTER: Schema := [
    Field("name", ZString(NameChecks), false),
    Field("email", ZString([Email(Some(EmailInvalid))]), false),
    Field("password", ZString(RegisterPasswordChecks), false)
  ]

  const VALIDATEUSER: Schema := [
    Field("email", ZString(NonEmpty), false),
    Field("name", ZString(NonEmpty), false),
    Field("image", ZString(NonEmpty), false),
    Field("accessToken", ZString(NonEmpty), false),
    Field("refreshToken", ZString(NonEmpty), true),
    Field("provider", ZString(NonEmpty), false),
    Field("providerAccountId", ZString(NonEmpty), false)
  ]

  const LOGIN: Schema := [
    Field("email", ZString([Email(Some(EmailInvalid))]), false),
    Field("password", ZString(LoginPasswordChecks), false)
  ]

  datatype RegisterRequest = RegisterRequest(name: string, email: string, password: string)

  datatype LoginRequest = LoginRequest(email: string, password: string)

  datatype ValidateUserRequest = ValidateUserRequest(
    email: string, name: string, image: string, accessToken: string,
    refreshToken: Option<string>, provider: string, providerAccountId: string)

  function AsRegisterRequest(v: Input): RegisterRequest
  {
    RegisterRequest(GetString(v, "name"), GetString(v, "email"), GetString(v, "password"))
  }

  function AsLoginRequest(v: Input): LoginRequest
  {
    LoginRequest(GetString(v, "email"), GetString(v, "password"))
  }

  function AsValidateUserRequest(v: Input): ValidateUserRequest
  {
    ValidateUserRequest(
      GetString(v, "email"), GetString(v, "name"), GetString(v, "image"),
      GetString(v, "accessToken"), GetOptionalString(v, "refreshToken"),
      GetString(v, "provider"), GetString(v, "providerAccountId"))
  }

  // The acceptance rules, written independently of the schema values.

  predicate NameRule(s: string)
  {
    1 <= Utf16Length(s) <= 100
  }

  predicate PasswordRule(s: string)
  {
    8 <= Utf16Length(s) <= 100 && Contains(s, UpperAZ) && Contains(s, Digit09)
  }

  predicate RegisterRule(isEmail: string -> bool, i: Input)
  {
    && StringAt(i, "name") && NameRule(i["name"].s)
    && StringAt(i, "email") && isEmail(i["email"].s)
    && StringAt(i, "password") && PasswordRule(i["password"].s)
  }

  predicate LoginRule(isEmail: string -> bool, i: Input)
  {
    && StringAt(i, "email") && isEmail(i["email"].s)
    && StringAt(i, "password") && PasswordRule(i["password"].s)
  }

  predicate ValidateUserRule(i: Input)
  {
    && Filled(i, "email") && Filled(i, "name") && Filled(i, "image")
    && Filled(i, "accessToken") && Filled(i, "provider") && Filled(i, "providerAccountId")
    && ("refreshToken" in i ==> Filled(i, "refreshToken"))
  }

  lemma NameChecksIff(isEmail: string -> bool, s: string)
    ensures (forall j :: 0 <= j < |NameChecks| ==> PassesString(isEmail, NameChecks[j], s)) <==> NameRule(s)
  {
    assert PassesString(isEmail, NameChecks[0], s) <==> Utf16Length(s) >= 1;
    assert PassesString(isEmail, NameChecks[1], s) <==> Utf16Length(s) <= 100;
  }

  lemma RegisterPasswordChecksIff(isEmail: string -> bool, s: string)
    ensures (forall j :: 0 <= j < |RegisterPasswordChecks| ==> PassesString(isEmail, RegisterPasswordChecks[j], s))
        <==> PasswordRule(s)
  {
    assert PassesString(isEmail, RegisterPasswordChecks[0], s) <==> Utf16Length(s) >= 8;
    assert PassesString(isEmail, RegisterPasswordChecks[1], s) <==> Contains(s, UpperAZ);
    assert PassesString(isEmail, RegisterPasswordChecks[2], s) <==> Contains(s, Digit09);
    assert PassesString(isEmail, RegisterPasswordChecks[3], s) <==> Utf16Length(s) <= 100;
  }

  /** A field `z.string().min(1)` accepts exactly the non-empty strings. */
  lemma NonEmptyIff(isEmail: string -> bool, s: string)
    ensures (forall j :: 0 <= j < |NonEmpty| ==> PassesString(isEmail, NonEmpty[j], s)) <==> s != ""
  {
    Utf16LengthZero(s);
    assert PassesString(isEmail, NonEmpty[0], s) <==> Utf16Length(s) >= 1;
  }

  /** REGISTER accepts a body exactly when its name has 1 to 100 characters, its email
      passes the email check, and its password has 8 to 100 characters with at least
      one of A-Z and at least one of 0-9. */
  lemma RegisterAccepts(isEmail: string -> bool, i: Input)
    ensures Parse(isEmail, REGISTER, i).Success? <==> RegisterRule(isEmail, i)
  {
    if StringAt(i, "name") { NameChecksIff(isEmail, i["name"].s); }
    if StringAt(i, "password") { RegisterPasswordChecksIff(isEmail, i["password"].s); }
    assert (forall j :: 0 <= j < |REGISTER| ==> FieldIssues(isEmail, REGISTER[j], i) == [])
      <==> (FieldIssues(isEmail, REGISTER[0], i) == []
        && FieldIssues(isEmail, REGISTER[1], i) == []
        && FieldIssues(isEmail, REGISTER[2], i) == []);
    if StringAt(i, "email") {
      var cs := [Email(Some(EmailInvalid))];
      assert StringIssues(isEmail, "email", cs, i["email"].s) == [] <==> isEmail(i["email"].s) by {
        assert PassesString(isEmail, cs[0], i["email"].s) <==> isEmail(i["email"].s);
      }
    }
  }

  /** LOGIN accepts a body exactly when its email passes the email check and its
      password satisfies the same rule as REGISTER's. */
  lemma LoginAccepts(isEmail: string -> bool, i: Input)
    ensures Parse(isEmail, LOGIN, i).Success? <==> LoginRule(isEmail, i)
  {
    if StringAt(i, "password") {
      RegisterPasswordChecksIff(isEmail, i["password"].s);
      LoginPasswordRuleIsRegisters(isEmail, i["password"].s);
    }
    assert (forall j :: 0 <= j < |LOGIN| ==> FieldIssues(isEmail, LOGIN[j], i) == [])
      <==> (FieldIssues(isEmail, LOGIN[0], i) == [] && FieldIssues(isEmail, LOGIN[1], i) == []);
    if StringAt(i, "email") {
      var cs := [Email(Some(EmailInvalid))];
      assert StringIssues(isEmail, "email", cs, i["email"].s) == [] <==> isEmail(i["email"].s) by {
        assert PassesString(isEmail, cs[0], i["email"].s) <==> isEmail(i["email"].s);
      }
    }
  }

  /** LOGIN's password chain is REGISTER's with one message changed: it accepts the
      same passwords, and the two chains differ only in what they say. */
  lemma LoginPasswordRuleIsRegisters(isEmail: string -> bool, s: string)
    ensures Unlabelled(LoginPasswordChecks) == Unlabelled(RegisterPasswordChecks)
    ensures LoginPasswordChecks != RegisterPasswordChecks
    ensures (forall j :: 0 <= j < |LoginPasswordChecks| ==> PassesString(isEmail, LoginPasswordChecks[j], s))
        <==> (forall j :: 0 <= j < |RegisterPasswordChecks| ==> PassesString(isEmail, RegisterPasswordChecks[j], s))
  {
    assert LoginPasswordChecks[0] != RegisterPasswordChecks[0];
    assert LoginPasswordChecks[1..] == RegisterPasswordChecks[1..];
    assert Unlabelled(LoginPasswordChecks) == [Min(8, None)] + Unlabelled(LoginPasswordChecks[1..]);
    assert Unlabelled(RegisterPasswordChecks) == [Min(8, None)] + Unlabelled(RegisterPasswordChecks[1..]);
    SameChecksAcceptSame(isEmail, LoginPasswordChecks, RegisterPasswordChecks, s);
  }

  /** VALIDATEUSER accepts a body exactly when email, name, image, accessToken, provider
      and providerAccountId are non-empty strings and refreshToken is either missing
      or a non-empty string (null is refused). */
  lemma ValidateUserAccepts(isEmail: string -> bool, i: Input)
    ensures Parse(isEmail, VALIDATEUSER, i).Success? <==> ValidateUserRule(i)
  {
    forall j | 0 <= j < |VALIDATEUSER|
      ensures FieldIssues(isEmail, VALIDATEUSER[j], i) == []
          <==> (if VALIDATEUSER[j].key in i then Filled(i, VALIDATEUSER[j].key) else VALIDATEUSER[j].optional)
    {
      NonEmptyFieldIff(isEmail, VALIDATEUSER[j], i);
    }
    var f := VALIDATEUSER;
    assert (forall j :: 0 <= j < |f| ==> FieldIssues(isEmail, f[j], i) == [])
      <==> (FieldIssues(isEmail, f[0], i) == [] && FieldIssues(isEmail, f[1], i) == []
        && FieldIssues(isEmail, f[2], i) == [] && FieldIssues(isEmail, f[3], i) == []
        && FieldIssues(isEmail, f[4], i) == [] && FieldIssues(isEmail, f[5], i) == []
        && FieldIssues(isEmail, f[6], i) == []);
  }

  /** A field `z.string().min(1)` is satisfied by a non-empty string, and by a missing
      key when it is optional. */
  lemma NonEmptyFieldIff(isEmail: string -> bool, f: Field, i: Input)
    requires f.kind == ZString(NonEmpty)
    ensures FieldIssues(isEmail, f, i) == [] <==> (if f.key in i then Filled(i, f.key) else f.optional)
  {
    if f.key in i && i[f.key].JString? {
      NonEmptyIff(isEmail, i[f.key].s);
    }
  }

  /** VALIDATEUSER does not check email syntax: its verdict is the same whatever the
      email check is, unlike REGISTER's and LOGIN's. */
  lemma ValidateUserIgnoresEmailSyntax(isEmail: string -> bool, isEmail': string -> bool, i: Input)
    ensures Parse(isEmail, VALIDATEUSER, i) == Parse(isEmail', VALIDATEUSER, i)
  {
    ValidateUserAccepts(isEmail, i);
    ValidateUserAccepts(isEmail', i);
    var a, b := Parse(isEmail, VALIDATEUSER, i), Parse(isEmail', VALIDATEUSER, i);
    if a.Failure? {
      IssuesIgnoreEmailCheck(isEmail, isEmail', VALIDATEUSER, i);
    }
  }

  /** The issues of a schema without an email check do not depend on the email check. */
  lemma {:induction false} IssuesIgnoreEmailCheck(isEmail: string -> bool, isEmail': string -> bool, schema: Schema, i: Input)
    requires forall j :: 0 <= j < |schema| ==> schema[j].kind == ZString(NonEmpty)
    ensures Issues(isEmail, schema, i) == Issues(isEmail', schema, i)
  {
    if schema != [] {
      IssuesIgnoreEmailCheck(isEmail, isEmail', schema[1..], i);
      var f := schema[0];
      assert f.kind == ZString(NonEmpty);
      if f.key in i && i[f.key].JString? {
        var s := i[f.key].s;
        assert StringIssues(isEmail, f.key, NonEmpty, s) == StringIssues(isEmail', f.key, NonEmpty, s) by {
          assert NonEmpty[1..] == [];
          assert PassesString(isEmail, NonEmpty[0], s) == PassesString(isEmail', NonEmpty[0], s);
        }
      }
    }
  }

  /** A validated REGISTER body yields the body's own name, email and password. */
  lemma RegisterRequestRoundTrip(isEmail: string -> bool, i: Input)
    requires Parse(isEmail, REGISTER, i).Success?
    ensures RegisterRule(isEmail, i)
    ensures AsRegisterRequest(Parse(isEmail, REGISTER, i).value)
         == RegisterRequest(i["name"].s, i["email"].s, i["password"].s)
  {
    RegisterAccepts(isEmail, i);
    assert REGISTER[0].key == "name" && REGISTER[1].key == "email" && REGISTER[2].key == "password";
    assert {"name", "email", "password"} <= Keys(REGISTER);
  }

  /** A validated LOGIN body yields the body's own email and password. */
  lemma LoginRequestRoundTrip(isEmail: string -> bool, i: Input)
    requires Parse(isEmail, LOGIN, i).Success?
    ensures LoginRule(isEmail, i)
    ensures AsLoginRequest(Parse(isEmail, LOGIN, i).value) == LoginRequest(i["email"].s, i["password"].s)
  {
    LoginAccepts(isEmail, i);
    assert LOGIN[0].key == "email" && LOGIN[1].key == "password";
    assert {"email", "password"} <= Keys(LOGIN);
  }

  /** A validated VALIDATEUSER body yields the body's own fields, with refreshToken
      present exactly when the body has one. */
  lemma ValidateUserRequestRoundTrip(isEmail: string -> bool, i: Input)
    requires Parse(isEmail, VALIDATEUSER, i).Success?
    ensures ValidateUserRule(i)
    ensures AsValidateUserRequest(Parse(isEmail, VALIDATEUSER, i).value) == AsValidateUserRequest(i)
    ensures var q := AsValidateUserRequest(i);
      && q.email == i["email"].s && q.name == i["name"].s && q.image == i["image"].s
      && q.accessToken == i["accessToken"].s && q.provider == i["provider"].s
      && q.providerAccountId == i["providerAccountId"].s
      && q.refreshToken == (if "refreshToken" in i then Some(i["refreshToken"].s) else None)
  {
    ValidateUserAccepts(isEmail, i);
    assert VALIDATEUSER[0].key == "email" && VALIDATEUSER[1].key == "name" && VALIDATEUSER[2].key == "image";
    assert VALIDATEUSER[3].key == "accessToken" && VALIDATEUSER[4].key == "refreshToken";
    assert VALIDATEUSER[5].key == "provider" && VALIDATEUSER[6].key == "providerAccountId";
    assert {"email", "name", "image", "accessToken", "refreshToken", "provider", "providerAccountId"} <= Keys(VALIDATEUSER);
  }

  // `validationService.validate(schema, request)` for each schema: the typed request
  // of a body the schema accepts, or the schema's ZodError.

  method ValidateRegister(isEmail: string -> bool, i: Input) returns (r: Result<RegisterRequest, Exception>)
    ensures r.Success? <==> RegisterRule(isEmail, i)
    ensures r.Success? ==> r.value == RegisterRequest(i["name"].s, i["email"].s, i["password"].s)
    ensures r.Failure? ==> r.error == ZodError(Issues(isEmail, REGISTER, i)) && r.error.issues != []
  {
    var parsed := Parse(isEmail, REGISTER, i);
    RegisterAccepts(isEmail, i);
    if parsed.Failure? {
      r := Failure(parsed.error);
      return;
    }
    RegisterRequestRoundTrip(isEmail, i);
    r := Success(AsRegisterRequest(parsed.value));
  }

  method ValidateLogin(isEmail: string -> bool, i: Input) returns (r: Result<LoginRequest, Exception>)
    ensures r.Success? <==> LoginRule(isEmail, i)
    ensures r.Success? ==> r.value == LoginRequest(i["email"].s, i["password"].s)
    ensures r.Failure? ==> r.error == ZodError(Issues(isEmail, LOGIN, i)) && r.error.issues != []
  {
    var parsed := Parse(isEmail, LOGIN, i);
    LoginAccepts(isEmail, i);
    if parsed.Failure? {
      r := Failure(parsed.error);
      return;
    }
    LoginRequestRoundTrip(isEmail, i);
    r := Success(AsLoginRequest(parsed.value));
  }

  method ValidateUser(isEmail: string -> bool, i: Input) returns (r: Result<ValidateUserRequest, Exception>)
    ensures r.Success? <==> ValidateUserRule(i)
    ensures r.Success? ==> r.value == AsValidateUserRequest(i)
    ensures r.Failure? ==> r.error == ZodError(Issues(isEmail, VALIDATEUSER, i)) && r.error.issues != []
  {
    var parsed := Parse(isEmail, VALIDATEUSER, i);
    ValidateUserAccepts(isEmail, i);
    if parsed.Failure? {
      r := Failure(parsed.error);
      return;
    }
    ValidateUserRequestRoundTrip(isEmail, i);
    r := Success(AsValidateUserRequest(parsed.value));
  }

  /** The password examples: "Abcdef12" passes; "wrong1A" is too short; "abcdefgh1" has
      no capital letter. */
  lemma PasswordExamples()
    ensures PasswordRule("Abcdef12")
    ensures !PasswordRule("wrong1A")
    ensures !PasswordRule("abcdefgh1")
  {
    Utf16LengthBounds("Abcdef12");
    Utf16LengthBounds("wrong1A");
    Utf16LengthBounds("abcdefgh1");
    assert InClass("Abcdef12"[0], UpperAZ) && InClass("Abcdef12"[6], Digit09);
    var s := "abcdefgh1";
    assert forall k :: 0 <= k < |s| ==> !InClass(s[k], UpperAZ);
  }
}
