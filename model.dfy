/**
 * The records of the database tables (User, Account, Task), the partial
 * updates that the services send to them, and the responses built from them.
 */
module Model {
  import opened Wrappers

  /** The task status enum: SELESAI (done) and BELUM_SELESAI (not done). */
  datatype TaskStatus = Selesai | BelumSelesai

  function StatusName(s: TaskStatus): string
  {
    match s
    case Selesai => "SELESAI"
    case BelumSelesai => "BELUM_SELESAI"
  }

  /** The user role enum; its values are declared in the database schema. */
  type Role = string

  datatype User = User(
    id: int,
    email: string,
    name: string,
    password: Option<string>,      // a password hash; None for a user created by federated login
    role: Role,
    image: Option<string>,
    accessToken: Option<string>,   // the raw access token of the last federated login; None after logout
    refreshToken: Option<string>)  // a hash of the last refresh token issued

  /** A federated-identity link, keyed by `providerAccountId`. */
  datatype Account = Account(
    userId: int,
    provider: string,
    providerAccountId: string,
    accessToken: string,
    refreshToken: Option<string>)

  datatype Task = Task(id: int, userId: int, task: string, status: TaskStatus, isDeleted: bool)

  /** The `data` of a user update: a present field is written, a missing one is kept.
      For the nullable token columns, `Some(None)` writes null. Id and email are never written. */
  datatype UserPatch = UserPatch(
    name: Option<string>,
    password: Option<string>,
    role: Option<Role>,
    image: Option<string>,
    accessToken: Option<Option<string>>,
    refreshToken: Option<Option<string>>)

  const NoUserChange := UserPatch(None, None, None, None, None, None)

  function Pick<T>(update: Option<T>, current: T): T
  {
    if update.Some? then update.value else current
  }

  function ApplyUserPatch(u: User, p: UserPatch): User
  {
    u.(name := Pick(p.name, u.name),
       password := if p.password.Some? then p.password else u.password,
       role := Pick(p.role, u.role),
       image := if p.image.Some? then p.image else u.image,
       accessToken := Pick(p.accessToken, u.accessToken),
       refreshToken := Pick(p.refreshToken, u.refreshToken))
  }

  /** The `data` of a task update; a missing (undefined) field is kept. */
  datatype TaskPatch = TaskPatch(task: Option<string>, status: Option<TaskStatus>, isDeleted: Option<bool>)

  function ApplyTaskPatch(t: Task, p: TaskPatch): Task
  {
    t.(task := Pick(p.task, t.task), status := Pick(p.status, t.status), isDeleted := Pick(p.isDeleted, t.isDeleted))
  }

  /** A key of a response object that is either left out or present with a value. */
  datatype Attr<T> = Omitted | Included(value: T)

  /** The user profile that the services return. It has no field for the password or
      the refresh token; `image` and `accessToken` are present only where a service
      puts them in. */
  datatype UserResponse = UserResponse(
    id: int, name: string, email: string, role: Role,
    image: Attr<Option<string>>, accessToken: Attr<Option<string>>)

  datatype TaskResponse = TaskResponse(id: int, userId: int, task: string, status: TaskStatus, isDeleted: bool)

  /** The `{ message, success }` object of delete and logout. */
  datatype Done = Done(message: string, success: bool)
}
