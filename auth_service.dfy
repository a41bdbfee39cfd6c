/**
 * The authentication service: password registration and login, and the
 * federated "validate" flow that creates or links an account of an identity
 * provider. Each flow validates its body, reads the user and account tables,
 * and either raises or writes; the contracts say what is created, what is
 * overwritten, and which error escapes.
 */
module AuthService {
  import opened Wrappers
  import opened Errors
  import opened Zod
  import opened AuthValidation
  import opened Crypto
  import opened Model
  import opened Database

  const EmailRegistered := "Alamat email ini telah terdaftar."
  const RegistrationFailed := "Registrasi gagal. Silakan coba lagi nanti."
  const WrongCredentials := "Email atau kata sandi yang Anda masukkan salah."
  const ValidationFailed := "Validasi gagal. Silakan coba lagi nanti."
  const UserNotFound := "Pengguna tidak ditemukan"
  /** What bcryptjs's compare raises when the stored hash is null (`typeof null` is "object"). */
  const IllegalArguments := "Illegal arguments: string, object"

  /** The catch block of register: a ZodError is rethrown as it is; every other
      error, the BadRequest of a taken email included, becomes one generic
      InternalServerError. */
  function RegisterCatch(e: Exception): (r: Exception)
    ensures r.ZodError? <==> e.ZodError?
    ensures r.ZodError? ==> r == e
    ensures !r.ZodError? ==> r == InternalServerError(Text(RegistrationFailed))
  {
    if e.ZodError? then e else InternalServerError(Text(RegistrationFailed))
  }

  /** The catch block of validate: a ZodError becomes a BadRequest carrying its
      issues; every other error becomes one generic InternalServerError. */
  function ValidateCatch(e: Exception): (r: Exception)
    ensures r.BadRequest? <==> e.ZodError?
    ensures e.ZodError? ==> r == BadRequest(IssueList(e.issues))
    ensures !e.ZodError? ==> r == InternalServerError(Text(ValidationFailed))
  {
    if e.ZodError? then BadRequest(IssueList(e.issues)) else InternalServerError(Text(ValidationFailed))
  }

  /** The profile register returns: no password, no image, no token. */
  function RegisterResponse(u: User): (r: UserResponse)
    ensures r.id == u.id && r.name == u.name && r.email == u.email && r.role == u.role
    ensures r.image == Omitted && r.accessToken == Omitted
  {
    UserResponse(u.id, u.name, u.email, u.role, Omitted, Omitted)
  }

  /** The profile login returns, with the access token just signed. */
  function LoginResponse(u: User, accessToken: string): (r: UserResponse)
    ensures r.id == u.id && r.name == u.name && r.email == u.email && r.role == u.role
    ensures r.image == Omitted && r.accessToken == Included(Some(accessToken))
  {
    UserResponse(u.id, u.name, u.email, u.role, Omitted, Included(Some(accessToken)))
  }

  /** The profile findUserById returns, with the stored access token. */
  function StoredProfile(u: User): (r: UserResponse)
    ensures r.id == u.id && r.name == u.name && r.email == u.email && r.role == u.role
    ensures r.image == Omitted && r.accessToken == Included(u.accessToken)
  {
    UserResponse(u.id, u.name, u.email, u.role, Omitted, Included(u.accessToken))
  }

  /** None of the three profiles depends on the password hash or the refresh token. */
  lemma ResponsesHideSecrets(u: User, password: Option<string>, refreshToken: Option<string>, accessToken: string)
    ensures var v := u.(password := password, refreshToken := refreshToken);
      && RegisterResponse(v) == RegisterResponse(u)
      && LoginResponse(v, accessToken) == LoginResponse(u, accessToken)
      && StoredProfile(v) == StoredProfile(u)
  {
  }

  class AuthService {
    const db: Database
    const crypto: Primitives
    /** The email syntax check of zod's `.email()`. */
    const isEmail: string -> bool

    constructor (db: Database, crypto: Primitives, isEmail: string -> bool)
      ensures this.db == db && this.crypto == crypto && this.isEmail == isEmail
    {
      this.db, this.crypto, this.isEmail := db, crypto, isEmail;
    }

    /** Fails with a BadRequest exactly when some user has the email. */
    method CheckExistingUser(email: string) returns (r: Outcome<Exception>)
      requires db.Valid()
      ensures r.Pass? <==> forall id :: id in db.users ==> db.users[id].email != email
      ensures r.Fail? ==> r.error == BadRequest(Text(EmailRegistered))
      ensures r.Pass? <==> email !in db.emailIndex
    {
      var count := db.CountUsersByEmail(email);
      if count > 0 {
        r := Fail(BadRequest(Text(EmailRegistered)));
      } else {
        r := Pass;
      }
    }

    /** The user with the email, if any. */
    method FindUserByEmail(email: string) returns (r: Option<User>)
      requires db.Valid()
      ensures r.Some? <==> exists id :: id in db.users && db.users[id].email == email
      ensures r.Some? ==> r.value.email == email && r.value.id in db.users && db.users[r.value.id] == r.value
    {
      r := db.FindUserByEmail(email);
    }

    /** The account with the providerAccountId, whatever its provider. */
    method FindAccount(providerAccountId: string) returns (r: Option<Account>)
      requires db.Valid()
      ensures r.Some? <==> providerAccountId in db.accounts
      ensures r.Some? ==> r.value == db.accounts[providerAccountId]
      ensures r.Some? ==> r.value.providerAccountId == providerAccountId && r.value.userId in db.users
    {
      r := db.FindAccount(providerAccountId);
    }

    /** The stored profile of the user with the id, access token included, or a NotFound. */
    method FindUserById(userId: int) returns (r: Result<UserResponse, Exception>)
      requires db.Valid()
      ensures userId !in db.users ==> r == Failure(NotFound(Text(UserNotFound)))
      ensures userId in db.users ==> r.Success? && r.value.id == userId
      ensures userId in db.users ==>
        var u := db.users[userId];
        r.value == UserResponse(userId, u.name, u.email, u.role, Omitted, Included(u.accessToken))
    {
      var user := db.FindUserById(userId);
      if user.None? {
        r := Failure(NotFound(Text(UserNotFound)));
        return;
      }
      r := Success(StoredProfile(user.value));
    }

    /** Creates a user with a hashed password, unless the body is invalid or the email
        is taken; a taken email surfaces as an InternalServerError. */
    method Register(request: Input) returns (r: Result<UserResponse, Exception>)
      requires db.Valid()
      modifies db
      ensures db.Valid()
      ensures r.Failure? ==> unchanged(db)
      ensures !RegisterRule(isEmail, request) ==> r == Failure(ZodError(Issues(isEmail, REGISTER, request)))
      ensures RegisterRule(isEmail, request) && old(db.FindUserByEmail(request["email"].s)).Some? ==>
        r == Failure(InternalServerError(Text(RegistrationFailed)))
      ensures RegisterRule(isEmail, request) && old(db.FindUserByEmail(request["email"].s)).None? ==>
        var u := User(old(db.nextUserId), request["email"].s, request["name"].s,
                      Some(crypto.hash(request["password"].s)), db.defaultRole, None, None, None);
        && r == Success(UserResponse(u.id, u.name, u.email, u.role, Omitted, Omitted))
        && db.users == old(db.users)[u.id := u]
        && db.emailIndex == old(db.emailIndex)[u.email := u.id]
        && db.nextUserId == old(db.nextUserId) + 1
        && db.accounts == old(db.accounts) && db.tasks == old(db.tasks) && db.nextTaskId == old(db.nextTaskId)
    {
      var parsed := ValidateRegister(isEmail, request);
      if parsed.Failure? {
        r := Failure(RegisterCatch(parsed.error));
        return;
      }
      var validated := parsed.value;
      var existing := CheckExistingUser(validated.email);
      if existing.Fail? {
        r := Failure(RegisterCatch(existing.error));
        return;
      }
      var hashedPassword := crypto.hash(validated.password);
      var user := db.CreateUser(validated.email, validated.name, Some(hashedPassword), None);
      r := Success(RegisterResponse(user));
    }

    /** Checks the credentials and, when they match, stores the hash of a fresh
        refresh token and returns a fresh access token, which is not stored. Every
        error is raised unchanged: the catch condition
        `error instanceof ZodError || UnauthorizedException` is always truthy. */
    method Login(request: Input) returns (r: Result<UserResponse, Exception>)
      requires db.Valid()
      modifies db
      ensures db.Valid()
      ensures r.Failure? ==> unchanged(db) && !r.error.InternalServerError?
      ensures db.emailIndex == old(db.emailIndex) && db.accounts == old(db.accounts)
      ensures db.nextUserId == old(db.nextUserId) && db.tasks == old(db.tasks) && db.nextTaskId == old(db.nextTaskId)
      ensures !LoginRule(isEmail, request) ==> r == Failure(ZodError(Issues(isEmail, LOGIN, request)))
      ensures LoginRule(isEmail, request) ==>
        var password := request["password"].s;
        var found := old(db.FindUserByEmail(request["email"].s));
        if found.None? then r == Failure(Unauthorized(Text(WrongCredentials)))
        else if found.value.password.None? then r == Failure(ForeignError(IllegalArguments))
        else if !crypto.compare(password, found.value.password.value) then r == Failure(Unauthorized(Text(WrongCredentials)))
        else
          var u := found.value;
          && r == Success(UserResponse(u.id, u.name, u.email, u.role, Omitted, Included(Some(AccessToken(crypto, u.id, u.email)))))
          && db.users == old(db.users)[u.id := u.(refreshToken := Some(crypto.hash(RefreshToken(crypto, u.id, u.email))))]
    {
      var parsed := ValidateLogin(isEmail, request);
      if parsed.Failure? {
        r := Failure(parsed.error);
        return;
      }
      var validated := parsed.value;
      var found := FindUserByEmail(validated.email);
      if found.None? {
        r := Failure(Unauthorized(Text(WrongCredentials)));
        return;
      }
      var user := found.value;
      if user.password.None? {
        r := Failure(ForeignError(IllegalArguments));
        return;
      }
      var isPasswordValid := crypto.compare(validated.password, user.password.value);
      if !isPasswordValid {
        r := Failure(Unauthorized(Text(WrongCredentials)));
        return;
      }
      var accessToken := AccessToken(crypto, user.id, user.email);
      var refreshToken := RefreshToken(crypto, user.id, user.email);
      var hashedRefreshToken := crypto.hash(refreshToken);
      var _ := db.UpdateUser(user.id, NoUserChange.(refreshToken := Some(Some(hashedRefreshToken))));
      r := Success(LoginResponse(user, accessToken));
    }

    /** The first half of validate: the account with the request's providerAccountId
        if there is one; otherwise, unless the email is taken, a new account together
        with a new user holding the request's email, name and image. */
    method FindOrCreateAccount(q: ValidateUserRequest) returns (r: Result<Account, Exception>)
      requires db.Valid()
      modifies db
      ensures db.Valid()
      ensures db.tasks == old(db.tasks) && db.nextTaskId == old(db.nextTaskId)
      ensures r.Failure? ==> unchanged(db)
      ensures r.Success? ==> r.value.userId in db.users && r.value.providerAccountId == q.providerAccountId
      ensures old(q.providerAccountId in db.accounts) ==>
        r == Success(old(db.accounts[q.providerAccountId])) && unchanged(db)
      ensures old(q.providerAccountId !in db.accounts && q.email in db.emailIndex) ==>
        r == Failure(BadRequest(Text(EmailRegistered)))
      ensures old(q.providerAccountId !in db.accounts && q.email !in db.emailIndex) ==>
        var a := Account(old(db.nextUserId), q.provider, q.providerAccountId, q.accessToken, q.refreshToken);
        && r == Success(a)
        && db.users == old(db.users)[a.userId := User(a.userId, q.email, q.name, None, db.defaultRole, Some(q.image), None, None)]
        && db.accounts == old(db.accounts)[q.providerAccountId := a]
        && db.emailIndex == old(db.emailIndex)[q.email := a.userId]
        && db.nextUserId == old(db.nextUserId) + 1
    {
      var account := FindAccount(q.providerAccountId);
      if account.Some? {
        r := Success(account.value);
        return;
      }
      var existing := CheckExistingUser(q.email);
      if existing.Fail? {
        r := Failure(existing.error);
        return;
      }
      var created := db.CreateAccountWithUser(
        q.email, q.name, q.image, q.accessToken, q.refreshToken, q.provider, q.providerAccountId);
      r := Success(created);
    }

    /** The second half of validate: the raw access token and the hash of the refresh
        token, both signed for `userId` and `email`, written to the user with the id. */
    method StoreTokens(userId: int, email: string)
      requires db.Valid() && userId in db.users
      modifies db
      ensures db.Valid()
      ensures db.users == old(db.users)[userId := old(db.users[userId]).(
        accessToken := Some(AccessToken(crypto, userId, email)),
        refreshToken := Some(crypto.hash(RefreshToken(crypto, userId, email))))]
      ensures db.emailIndex == old(db.emailIndex) && db.accounts == old(db.accounts) && db.tasks == old(db.tasks)
      ensures db.nextUserId == old(db.nextUserId) && db.nextTaskId == old(db.nextTaskId)
    {
      var accessToken := AccessToken(crypto, userId, email);
      var refreshToken := RefreshToken(crypto, userId, email);
      var hashedRefreshToken := crypto.hash(refreshToken);
      var _ := db.UpdateUser(userId, NoUserChange.(
        accessToken := Some(Some(accessToken)), refreshToken := Some(Some(hashedRefreshToken))));
    }

    /** The federated login: links to the account with the providerAccountId if there
        is one, and otherwise creates a user and an account together (refused when the
        email is taken); then stores fresh tokens on the linked user and returns the
        account. The provider of the request plays no part in the lookup. */
    method Validate(request: Input) returns (r: Result<Account, Exception>)
      requires db.Valid()
      modifies db
      ensures db.Valid()
      ensures r.Failure? ==> unchanged(db)
      ensures db.tasks == old(db.tasks) && db.nextTaskId == old(db.nextTaskId)
      ensures !ValidateUserRule(request) ==>
        r == Failure(BadRequest(IssueList(Issues(isEmail, VALIDATEUSER, request))))
      ensures ValidateUserRule(request) ==>
        var q := AsValidateUserRequest(request);
        old(q.providerAccountId in db.accounts) ==>
        var a := old(db.accounts[q.providerAccountId]);
        && r == Success(a)
        && db.users == old(db.users)[a.userId := old(db.users[a.userId]).(
             accessToken := Some(AccessToken(crypto, a.userId, q.email)),
             refreshToken := Some(crypto.hash(RefreshToken(crypto, a.userId, q.email))))]
        && db.accounts == old(db.accounts) && db.emailIndex == old(db.emailIndex)
        && db.nextUserId == old(db.nextUserId)
      ensures ValidateUserRule(request) ==>
        var q := AsValidateUserRequest(request);
        old(q.providerAccountId !in db.accounts && q.email in db.emailIndex) ==>
        r == Failure(InternalServerError(Text(ValidationFailed)))
      ensures ValidateUserRule(request) ==>
        var q := AsValidateUserRequest(request);
        old(q.providerAccountId !in db.accounts && q.email !in db.emailIndex) ==>
        var a := Account(old(db.nextUserId), q.provider, q.providerAccountId, q.accessToken, q.refreshToken);
        && r == Success(a)
        && db.users == old(db.users)[a.userId := User(a.userId, q.email, q.name, None, db.defaultRole, Some(q.image),
             Some(AccessToken(crypto, a.userId, q.email)), Some(crypto.hash(RefreshToken(crypto, a.userId, q.email))))]
        && db.accounts == old(db.accounts)[q.providerAccountId := a]
        && db.emailIndex == old(db.emailIndex)[q.email := a.userId]
        && db.nextUserId == old(db.nextUserId) + 1
    {
      var parsed := ValidateUser(isEmail, request);
      if parsed.Failure? {
        r := Failure(ValidateCatch(parsed.error));
        return;
      }
      var validated := parsed.value;
      var account := FindOrCreateAccount(validated);
      if account.Failure? {
        r := Failure(ValidateCatch(account.error));
        return;
      }
      var linked := account.value;
      StoreTokens(linked.userId, validated.email);
      r := Success(linked);
    }
  }
}
