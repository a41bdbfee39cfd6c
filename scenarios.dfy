/**
 * Sequences of requests against a fresh database, each proved to end as the
 * services' code makes it end: registration and login, a federated login
 * repeated, logout, and a task's life up to its soft deletion.
 */
module Scenarios {
  import opened Wrappers
  import opened Errors
  import opened Zod
  import opened AuthValidation
  import opened Crypto
  import opened Model
  import opened Database
  import TaskValidation
  import AuthService
  import TaskService
  import UserService

  const AnaEmail := "ana@example.com"

  /** Registering a free email succeeds and stores the password's hash with no access
      token; registering the same body again reports an internal error, not a
      conflict, and changes nothing. */
  method RegisterTwice(auth: AuthService.AuthService, body: Input)
    returns (registered: Result<UserResponse, Exception>, again: Result<UserResponse, Exception>)
    requires auth.db.Valid() && RegisterRule(auth.isEmail, body)
    requires auth.db.FindUserByEmail(body["email"].s).None?
    modifies auth.db
    ensures registered.Success? && registered.value.email == body["email"].s
    ensures registered.value.accessToken == Omitted && auth.db.Valid()
    ensures var u := auth.db.FindUserByEmail(body["email"].s);
      u.Some? && u.value.id == registered.value.id
      && u.value.password == Some(auth.crypto.hash(body["password"].s)) && u.value.accessToken.None?
    ensures again == Failure(InternalServerError(Text(AuthService.RegistrationFailed)))
  {
    registered := auth.Register(body);
    again := auth.Register(body);
  }

  /** Logging in with the password whose hash is stored succeeds, given that bcrypt
      matches a password with its own hash, and returns a fresh access token; the
      profile is still refused afterwards, because a password login does not store the
      access token it returns. */
  method LoginThenProfile(auth: AuthService.AuthService, users: UserService.UserService, request: Input)
    returns (loggedIn: Result<UserResponse, Exception>, profile: Result<UserResponse, Exception>)
    requires users.db == auth.db && auth.db.Valid()
    requires Sound(auth.crypto) && LoginRule(auth.isEmail, request)
    requires var u := auth.db.FindUserByEmail(request["email"].s);
      u.Some? && u.value.password == Some(auth.crypto.hash(request["password"].s)) && u.value.accessToken.None?
    modifies auth.db
    ensures loggedIn.Success? && loggedIn.value.email == request["email"].s
    ensures loggedIn.value.accessToken
         == Included(Some(AccessToken(auth.crypto, loggedIn.value.id, request["email"].s)))
    ensures profile == Failure(Unauthorized(Text(UserService.TokenRequired)))
  {
    var user := auth.db.FindUserByEmail(request["email"].s).value;
    loggedIn := auth.Login(request);
    profile := users.Get(user);
  }

  /** The concrete body of a registration that the schema accepts. */
  lemma AnaRegisters(isEmail: string -> bool)
    requires isEmail(AnaEmail)
    ensures RegisterRule(isEmail, map["name" := JString("Ana"), "email" := JString(AnaEmail), "password" := JString("Abcdef12")])
    ensures LoginRule(isEmail, map["email" := JString(AnaEmail), "password" := JString("Abcdef12")])
  {
    PasswordExamples();
    Utf16LengthBounds("Ana");
  }

  /** A password of seven characters fails validation, whatever the store holds: the
      caller sees zod's error, not the wrong-credentials message. */
  method ShortPasswordLogin(auth: AuthService.AuthService, email: string) returns (r: Result<UserResponse, Exception>)
    requires auth.db.Valid()
    modifies auth.db
    ensures r.Failure? && r.error.ZodError? && r.error.issues != []
    ensures unchanged(auth.db)
  {
    PasswordExamples();
    var body := map["email" := JString(email), "password" := JString("wrong1A")];
    assert !LoginRule(auth.isEmail, body);
    LoginAccepts(auth.isEmail, body);
    r := auth.Login(body);
  }

  /** A federated login, then another with the same providerAccountId but a different
      email and provider: the second links to the first account and creates nothing,
      and the user keeps the first email. */
  method FederatedRelogin(crypto: Primitives, isEmail: string -> bool, role: Role, status: TaskStatus)
    returns (db: Database, first: Result<Account, Exception>, second: Result<Account, Exception>)
    ensures first.Success? && second == first
    ensures db.accounts.Keys == {"g-1"} && db.users.Keys == {first.value.userId}
    ensures db.users[first.value.userId].email == AnaEmail && db.users[first.value.userId].password.None?
  {
    db := new Database(role, status);
    var auth := new AuthService.AuthService(db, crypto, isEmail);
    var google := map[
      "email" := JString(AnaEmail), "name" := JString("Ana"), "image" := JString("https://img/ana.png"),
      "accessToken" := JString("ya29"), "provider" := JString("google"), "providerAccountId" := JString("g-1")];
    assert ValidateUserRule(google);
    first := auth.Validate(google);
    var other := google["email" := JString("ana@other.example")]["provider" := JString("github")];
    assert ValidateUserRule(other);
    second := auth.Validate(other);
  }

  /** A user without a password (one created by a federated login) cannot log in with any
      password: bcrypt's error on the missing hash reaches the caller unchanged. */
  method PasswordLoginOfFederatedUser(auth: AuthService.AuthService, request: Input)
    returns (r: Result<UserResponse, Exception>)
    requires auth.db.Valid() && LoginRule(auth.isEmail, request)
    requires auth.db.FindUserByEmail(request["email"].s).Some?
    requires auth.db.FindUserByEmail(request["email"].s).value.password.None?
    modifies auth.db
    ensures r == Failure(ForeignError(AuthService.IllegalArguments)) && unchanged(auth.db)
  {
    r := auth.Login(request);
  }

  /** After logout, the profile of the same user is refused until a federated login
      stores a new access token. */
  method LogoutEndsProfile(users: UserService.UserService, user: User)
    returns (loggedOut: Result<Done, Exception>, profile: Result<UserResponse, Exception>)
    requires users.db.Valid() && users.db.FindUserByEmail(user.email).Some?
    modifies users.db
    ensures loggedOut == Success(Done(UserService.LoggedOut, true))
    ensures profile == Failure(Unauthorized(Text(UserService.TokenRequired)))
  {
    loggedOut := users.Logout(user);
    profile := users.Get(user);
  }

  /** Soft deletion is final: once a live task is deleted, get, a second delete, and an
      update that tries to clear isDeleted all report that the task does not exist. */
  method DeleteIsFinal(tasks: TaskService.TaskService, user: User, id: int)
    returns (deleted: Result<Done, Exception>, got: Result<TaskResponse, Exception>,
             deletedAgain: Result<Done, Exception>, undeleted: Result<TaskResponse, Exception>)
    requires tasks.db.Valid() && TaskService.Live(tasks.db.tasks, id, user.id)
    modifies tasks.db
    ensures deleted == Success(Done(TaskService.TaskDeleted, true))
    ensures got == Failure(NotFound(Text(TaskService.TaskNotFound)))
    ensures deletedAgain == Failure(NotFound(Text(TaskService.TaskNotFound))) && undeleted == got
    ensures tasks.db.tasks == old(tasks.db.tasks)[id := old(tasks.db.tasks[id]).(isDeleted := true)]
  {
    deleted := tasks.Delete(user, id);
    got := tasks.Get(user, id);
    deletedAgain := tasks.Delete(user, id);
    var undelete := map["id" := JNumber(id), "isDeleted" := JBool(false)];
    assert TaskValidation.UpdateRule(undelete);
    undeleted := tasks.Update(user, undelete);
  }

  /** A task created and soft-deleted leaves the owner's first page empty while the page
      count still counts it; another user never sees it. */
  method DeletedTaskStillCounted(isEmail: string -> bool, role: Role, status: TaskStatus)
    returns (created: Result<TaskResponse, Exception>, foreign: Result<TaskResponse, Exception>,
             listed: Result<TaskService.ListResponse, Exception>)
    ensures created.Success? && created.value.userId == 1 && created.value.task == "Belajar Dafny"
    ensures foreign == Failure(NotFound(Text(TaskService.TaskNotFound)))
    ensures listed.Success? && listed.value.data == [] && listed.value.paging == TaskService.Paging(10, 1, 1)
  {
    var db := new Database(role, status);
    var tasks := new TaskService.TaskService(db, isEmail);
    var ana := User(1, AnaEmail, "Ana", None, role, None, None, None);
    var budi := User(2, "budi@example.com", "Budi", None, role, None, None, None);
    var body := map["userId" := JNumber(1), "task" := JString("Belajar Dafny")];
    assert TaskValidation.CreateRule(body);
    created := tasks.Create(ana, body);
    var t := Task(1, 1, "Belajar Dafny", status, false);
    assert created.value.id == 1 && db.tasks == map[1 := t] && db.nextTaskId == 2;
    foreign := tasks.Get(budi, 1);
    var _ := tasks.Delete(ana, 1);
    assert db.tasks == map[1 := t.(isDeleted := true)] && db.nextTaskId == 2;
    listed := ListOnlyDeleted(tasks, ana, t.(isDeleted := true));
  }

  /** Listing for the owner of a store whose one task is soft-deleted. */
  method ListOnlyDeleted(tasks: TaskService.TaskService, user: User, t: Task)
    returns (listed: Result<TaskService.ListResponse, Exception>)
    requires tasks.db.Valid() && tasks.db.tasks == map[1 := t] && tasks.db.nextTaskId == 2
    requires user.id == 1 && t.id == 1 && t.userId == 1 && t.isDeleted
    ensures listed.Success? && listed.value.data == [] && listed.value.paging == TaskService.Paging(10, 1, 1)
  {
    OnlyDeletedTask(tasks.db.tasks, tasks.db.nextTaskId, t);
    listed := tasks.List(user, 10, 1);
  }

  /** A store whose one task is user 1's, soft-deleted: no live rows, one row counted,
      one page of ten. */
  lemma OnlyDeletedTask(tasks: map<int, Task>, n: int, t: Task)
    requires tasks == map[1 := t] && n == 2
    requires t.id == 1 && t.userId == 1 && t.isDeleted
    ensures SelectTasks(tasks, 1, true, n) == []
    ensures |set id | id in tasks && tasks[id].userId == 1| == 1
    ensures TaskService.TotalPages(1, 10) == 1
  {
    assert (set id | id in tasks && tasks[id].userId == 1) == {1};
  }
}
