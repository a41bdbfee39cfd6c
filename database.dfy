/**
 * The database as the services use it: the user table with its unique email
 * index, the account table keyed by its unique providerAccountId, and the task
 * table, with the reads and writes the services issue. Ids are allocated by
 * autoincrement. A query over several rows returns them in ascending id order.
 */
module Database {
  import opened Wrappers
  import opened Errors
  import opened Model

  /** The store's error, raised as ForeignError, for an update whose row does not exist. */
  const RecordNotFound := "Record to update not found."

  /** The store's validation error, raised as ForeignError, for a query with a negative
      `skip`; its exact wording is not modelled. */
  const NegativeSkip := "Invalid value for argument `skip`: must not be negative."

  predicate Selected(t: Task, userId: int, liveOnly: bool)
  {
    t.userId == userId && (!liveOnly || !t.isDeleted)
  }

  /** The rows with ids 1 .. n-1, in ascending id order, that belong to `userId`
      (and, when `liveOnly`, are not soft-deleted). */
  function SelectTasks(tasks: map<int, Task>, userId: int, liveOnly: bool, n: int): (r: seq<Task>)
    ensures |r| <= if n > 1 then n - 1 else 0
    decreases n
  {
    if n <= 1 then []
    else
      SelectTasks(tasks, userId, liveOnly, n - 1)
      + (if n - 1 in tasks && Selected(tasks[n - 1], userId, liveOnly) then [tasks[n - 1]] else [])
  }

  /** Each row of `r` is a matching row of `tasks` with an id below `n`. */
  predicate OnlySelected(tasks: map<int, Task>, userId: int, liveOnly: bool, n: int, r: seq<Task>)
  {
    forall k :: 0 <= k < |r| ==>
      r[k].id in tasks && tasks[r[k].id] == r[k] && 1 <= r[k].id < n && Selected(r[k], userId, liveOnly)
  }

  /** Every matching row of `tasks` with an id in 1 .. n-1 is in `r`. */
  predicate AllSelected(tasks: map<int, Task>, userId: int, liveOnly: bool, n: int, r: seq<Task>)
  {
    forall id :: id in tasks && 1 <= id < n && Selected(tasks[id], userId, liveOnly) ==> tasks[id] in r
  }

  predicate Ascending(r: seq<Task>)
  {
    forall a, b :: 0 <= a < b < |r| ==> r[a].id < r[b].id
  }

  /** Each selected row is a matching row stored under its id, with an id below `n`. */
  lemma {:induction false} SelectTasksOnly(tasks: map<int, Task>, userId: int, liveOnly: bool, n: int)
    requires forall id :: id in tasks ==> tasks[id].id == id
    ensures OnlySelected(tasks, userId, liveOnly, n, SelectTasks(tasks, userId, liveOnly, n))
  {
    if n > 1 {
      SelectTasksOnly(tasks, userId, liveOnly, n - 1);
      var prefix := SelectTasks(tasks, userId, liveOnly, n - 1);
      var r := SelectTasks(tasks, userId, liveOnly, n);
      forall k | 0 <= k < |r|
        ensures r[k].id in tasks && tasks[r[k].id] == r[k] && 1 <= r[k].id < n && Selected(r[k], userId, liveOnly)
      {
        if k < |prefix| { assert r[k] == prefix[k]; } else { assert r[k] == tasks[n - 1]; }
      }
    }
  }

  /** Every matching row with an id in 1 .. n-1 is selected. */
  lemma {:induction false} SelectTasksAll(tasks: map<int, Task>, userId: int, liveOnly: bool, n: int)
    ensures AllSelected(tasks, userId, liveOnly, n, SelectTasks(tasks, userId, liveOnly, n))
  {
    if n > 1 {
      SelectTasksAll(tasks, userId, liveOnly, n - 1);
      var prefix := SelectTasks(tasks, userId, liveOnly, n - 1);
      var r := SelectTasks(tasks, userId, liveOnly, n);
      forall id | id in tasks && 1 <= id < n && Selected(tasks[id], userId, liveOnly)
        ensures tasks[id] in r
      {
        if id < n - 1 { assert tasks[id] in prefix; } else { assert r[|r| - 1] == tasks[id]; }
      }
    }
  }

  /** The selection comes in ascending id order. */
  lemma {:induction false} SelectTasksAscending(tasks: map<int, Task>, userId: int, liveOnly: bool, n: int)
    requires forall id :: id in tasks ==> tasks[id].id == id
    ensures Ascending(SelectTasks(tasks, userId, liveOnly, n))
  {
    if n > 1 {
      SelectTasksAscending(tasks, userId, liveOnly, n - 1);
      SelectTasksOnly(tasks, userId, liveOnly, n - 1);
      var prefix := SelectTasks(tasks, userId, liveOnly, n - 1);
      var r := SelectTasks(tasks, userId, liveOnly, n);
      forall a, b | 0 <= a < b < |r| ensures r[a].id < r[b].id {
        if b < |prefix| { assert r[a] == prefix[a] && r[b] == prefix[b]; }
        else { assert r[a] == prefix[a] && r[b] == tasks[n - 1]; }
      }
    }
  }

  /** The selection is exactly the matching rows below `n`, each once, in ascending id order. */
  lemma SelectTasksSpec(tasks: map<int, Task>, userId: int, liveOnly: bool, n: int)
    requires forall id :: id in tasks ==> tasks[id].id == id
    ensures OnlySelected(tasks, userId, liveOnly, n, SelectTasks(tasks, userId, liveOnly, n))
    ensures AllSelected(tasks, userId, liveOnly, n, SelectTasks(tasks, userId, liveOnly, n))
    ensures Ascending(SelectTasks(tasks, userId, liveOnly, n))
  {
    SelectTasksOnly(tasks, userId, liveOnly, n);
    SelectTasksAll(tasks, userId, liveOnly, n);
    SelectTasksAscending(tasks, userId, liveOnly, n);
  }

  /** There are never more live rows of a user than rows of that user. */
  lemma {:induction false} LiveTasksAtMostAll(tasks: map<int, Task>, userId: int, n: int)
    ensures |SelectTasks(tasks, userId, true, n)| <= |SelectTasks(tasks, userId, false, n)|
  {
    if n > 1 {
      LiveTasksAtMostAll(tasks, userId, n - 1);
    }
  }

  /** The rows from `skip` on, at most `take` of them. */
  function Window(rows: seq<Task>, skip: nat, take: nat): (r: seq<Task>)
    ensures |r| == (if skip >= |rows| then 0 else if |rows| - skip < take then |rows| - skip else take)
    ensures forall k :: 0 <= k < |r| ==> r[k] == rows[skip + k]
  {
    var lo := if skip < |rows| then skip else |rows|;
    var hi := if skip + take < |rows| then skip + take else |rows|;
    rows[lo..hi]
  }

  /** A window of a selection is a selection too: matching rows, in ascending id order. */
  lemma WindowOfSelection(tasks: map<int, Task>, userId: int, liveOnly: bool, n: int, rows: seq<Task>, skip: nat, take: nat)
    requires OnlySelected(tasks, userId, liveOnly, n, rows) && Ascending(rows)
    ensures OnlySelected(tasks, userId, liveOnly, n, Window(rows, skip, take))
    ensures Ascending(Window(rows, skip, take))
  {
    var w := Window(rows, skip, take);
    forall a, b | 0 <= a < b < |w| ensures w[a].id < w[b].id {
      assert w[a] == rows[skip + a] && w[b] == rows[skip + b];
    }
  }

  /** The ids in 1 .. n-1 of the rows that match. */
  function MatchingIds(tasks: map<int, Task>, userId: int, liveOnly: bool, n: int): set<int>
  {
    set id | id in tasks && 1 <= id < n && Selected(tasks[id], userId, liveOnly)
  }

  /** The selection has one row per matching id below `n`. */
  lemma {:induction false} SelectTasksCount(tasks: map<int, Task>, userId: int, liveOnly: bool, n: int)
    ensures |SelectTasks(tasks, userId, liveOnly, n)| == |MatchingIds(tasks, userId, liveOnly, n)|
  {
    if n > 1 {
      SelectTasksCount(tasks, userId, liveOnly, n - 1);
      var prev := MatchingIds(tasks, userId, liveOnly, n - 1);
      if n - 1 in tasks && Selected(tasks[n - 1], userId, liveOnly) {
        assert MatchingIds(tasks, userId, liveOnly, n) == prev + {n - 1};
        assert n - 1 !in prev;
      } else {
        assert MatchingIds(tasks, userId, liveOnly, n) == prev;
      }
    } else {
      assert MatchingIds(tasks, userId, liveOnly, n) == {};
    }
  }

  class Database {
    var users: map<int, User>
    var emailIndex: map<string, int>
    var accounts: map<string, Account>
    var tasks: map<int, Task>
    var nextUserId: int
    var nextTaskId: int
    /** The column defaults of the schema for a new user's role and a new task's status. */
    const defaultRole: Role
    const defaultStatus: TaskStatus

    /** Every row is stored under its own id and below the next autoincrement value;
        the email index maps each user's email to that user and nothing else; every
        account is stored under its providerAccountId and points to an existing user. */
    ghost predicate Valid()
      reads this
    {
      && 1 <= nextUserId && 1 <= nextTaskId
      && (forall id :: id in users ==> users[id].id == id && 1 <= id < nextUserId)
      && (forall id :: id in users ==> users[id].email in emailIndex && emailIndex[users[id].email] == id)
      && (forall e :: e in emailIndex ==> emailIndex[e] in users && users[emailIndex[e]].email == e)
      && (forall p :: p in accounts ==> accounts[p].providerAccountId == p && accounts[p].userId in users)
      && (forall id :: id in tasks ==> tasks[id].id == id && 1 <= id < nextTaskId)
    }

    constructor (defaultRole: Role, defaultStatus: TaskStatus)
      ensures Valid()
      ensures users == map[] && emailIndex == map[] && accounts == map[] && tasks == map[]
      ensures nextUserId == 1 && nextTaskId == 1
      ensures this.defaultRole == defaultRole && this.defaultStatus == defaultStatus
    {
      users, emailIndex, accounts, tasks := map[], map[], map[], map[];
      nextUserId, nextTaskId := 1, 1;
      this.defaultRole, this.defaultStatus := defaultRole, defaultStatus;
    }

    /** `user.findUnique({ where: { email } })`, answered through the email index. */
    function FindUserByEmail(email: string): (r: Option<User>)
      reads this
      requires Valid()
      ensures r.Some? <==> exists id :: id in users && users[id].email == email
      ensures r.Some? <==> email in emailIndex
      ensures r.Some? ==> r.value.email == email && r.value.id in users && users[r.value.id] == r.value
    {
      if email in emailIndex then
        var id := emailIndex[email];
        assert id in users && users[id].email == email;
        Some(users[id])
      else
        assert forall id :: id in users ==> users[id].email != email by {
          forall id | id in users ensures users[id].email != email {
            assert users[id].email in emailIndex;
          }
        }
        None
    }

    /** `user.count({ where: { email } })`: never more than one, by the unique index. */
    function CountUsersByEmail(email: string): (n: nat)
      reads this
      requires Valid()
      ensures n <= 1
      ensures n == 0 <==> forall id :: id in users ==> users[id].email != email
      ensures n == 0 <==> email !in emailIndex
    {
      var matching := set id | id in users && users[id].email == email;
      assert forall id :: id in matching ==> email in emailIndex && id == emailIndex[email] by {
        forall id | id in matching ensures email in emailIndex && id == emailIndex[email] {
          assert users[id].email in emailIndex;
        }
      }
      if email in emailIndex then
        var id := emailIndex[email];
        assert id in users && users[id].email == email;
        assert forall x :: x in matching <==> x == id;
        assert matching == {id};
        |matching|
      else
        assert forall id :: id !in matching;
        assert matching == {};
        |matching|
    }

    /** `user.findUnique({ where: { id } })`. */
    function FindUserById(id: int): (r: Option<User>)
      reads this
      ensures r.Some? <==> id in users
      ensures r.Some? ==> r.value == users[id]
      ensures Valid() && r.Some? ==> r.value.id == id
    {
      if id in users then Some(users[id]) else None
    }

    /** `account.findUnique({ where: { providerAccountId } })`. */
    function FindAccount(providerAccountId: string): (r: Option<Account>)
      reads this
      ensures r.Some? <==> providerAccountId in accounts
      ensures r.Some? ==> r.value == accounts[providerAccountId]
      ensures Valid() && r.Some? ==> r.value.providerAccountId == providerAccountId && r.value.userId in users
    {
      if providerAccountId in accounts then Some(accounts[providerAccountId]) else None
    }

    /** `task.findFirst({ where: { id, userId, isDeleted: false } })`. */
    function FindFirstTask(id: int, userId: int): (r: Option<Task>)
      reads this
      ensures r.Some? <==> id in tasks && tasks[id].userId == userId && !tasks[id].isDeleted
      ensures r.Some? ==> r.value == tasks[id]
    {
      if id in tasks && tasks[id].userId == userId && !tasks[id].isDeleted then Some(tasks[id]) else None
    }

    /** `task.findMany({ where: { userId, isDeleted: false }, skip, take })`: the window
        from `skip` of the user's live rows, at most `take` of them; a negative `skip`
        is refused by the store. */
    function FindManyTasks(userId: int, skip: int, take: nat): (r: Result<seq<Task>, Exception>)
      reads this
      requires Valid()
      ensures r.Failure? <==> skip < 0
      ensures r.Failure? ==> r.error == ForeignError(NegativeSkip)
      ensures r.Success? ==>
        var rows := SelectTasks(tasks, userId, true, nextTaskId);
        && |r.value| == (if skip >= |rows| then 0 else if |rows| - skip < take then |rows| - skip else take)
        && (forall k :: 0 <= k < |r.value| ==> r.value[k] == rows[skip + k])
      ensures r.Success? ==> OnlySelected(tasks, userId, true, nextTaskId, r.value) && Ascending(r.value)
    {
      if skip < 0 then Failure(ForeignError(NegativeSkip))
      else
        var rows := SelectTasks(tasks, userId, true, nextTaskId);
        SelectTasksSpec(tasks, userId, true, nextTaskId);
        WindowOfSelection(tasks, userId, true, nextTaskId, rows, skip, take);
        Success(Window(rows, skip, take))
    }

    /** `task.count({ where: { userId } })`: every row of the user, soft-deleted ones
        included, so never fewer than the user's live rows. */
    function CountTasks(userId: int): (n: nat)
      reads this
      requires Valid()
      ensures n == |set id | id in tasks && tasks[id].userId == userId|
      ensures |SelectTasks(tasks, userId, true, nextTaskId)| <= n
    {
      SelectTasksCount(tasks, userId, false, nextTaskId);
      assert MatchingIds(tasks, userId, false, nextTaskId) == set id | id in tasks && tasks[id].userId == userId;
      LiveTasksAtMostAll(tasks, userId, nextTaskId);
      |SelectTasks(tasks, userId, false, nextTaskId)|
    }

    /** `user.create`. The new row gets the next id, the default role and no tokens. */
    method CreateUser(email: string, name: string, password: Option<string>, image: Option<string>)
      returns (u: User)
      requires Valid()
      requires email !in emailIndex
      modifies this
      ensures Valid()
      ensures u == User(old(nextUserId), email, name, password, defaultRole, image, None, None)
      ensures users == old(users)[u.id := u] && emailIndex == old(emailIndex)[email := u.id]
      ensures nextUserId == old(nextUserId) + 1
      ensures accounts == old(accounts) && tasks == old(tasks) && nextTaskId == old(nextTaskId)
    {
      u := User(nextUserId, email, name, password, defaultRole, image, None, None);
      users := users[u.id := u];
      emailIndex := emailIndex[email := u.id];
      nextUserId := nextUserId + 1;
    }

    /** `account.create` with a nested `user.create`: both rows or neither. The new
        user has the email, name and image given, no password and no tokens. */
    method CreateAccountWithUser(
      email: string, name: string, image: string,
      accessToken: string, refreshToken: Option<string>, provider: string, providerAccountId: string)
      returns (a: Account)
      requires Valid()
      requires email !in emailIndex && providerAccountId !in accounts
      modifies this
      ensures Valid()
      ensures a == Account(old(nextUserId), provider, providerAccountId, accessToken, refreshToken)
      ensures users == old(users)[a.userId := User(a.userId, email, name, None, defaultRole, Some(image), None, None)]
      ensures emailIndex == old(emailIndex)[email := a.userId]
      ensures accounts == old(accounts)[providerAccountId := a]
      ensures nextUserId == old(nextUserId) + 1
      ensures tasks == old(tasks) && nextTaskId == old(nextTaskId)
    {
      var id := nextUserId;
      users := users[id := User(id, email, name, None, defaultRole, Some(image), None, None)];
      emailIndex := emailIndex[email := id];
      a := Account(id, provider, providerAccountId, accessToken, refreshToken);
      accounts := accounts[providerAccountId := a];
      nextUserId := nextUserId + 1;
    }

    /** `user.update` of a row that exists. */
    method UpdateUser(id: int, data: UserPatch) returns (u: User)
      requires Valid()
      requires id in users
      modifies this`users
      ensures Valid()
      ensures u == ApplyUserPatch(old(users)[id], data)
      ensures users == old(users)[id := u]
    {
      u := ApplyUserPatch(users[id], data);
      users := users[id := u];
    }

    /** `user.update({ where: { email }, data })`. */
    method UpdateUserByEmail(email: string, data: UserPatch) returns (r: Result<User, Exception>)
      requires Valid()
      modifies this`users
      ensures Valid()
      ensures old(email !in emailIndex) ==> r == Failure(ForeignError(RecordNotFound)) && users == old(users)
      ensures old(email in emailIndex) ==>
        var id := old(emailIndex)[email];
        var u := ApplyUserPatch(old(users)[id], data);
        r == Success(u) && users == old(users)[id := u]
    {
      if email !in emailIndex {
        r := Failure(ForeignError(RecordNotFound));
        return;
      }
      var u := UpdateUser(emailIndex[email], data);
      r := Success(u);
    }

    /** `task.create`. The new row gets the next id, the default status and isDeleted = false. */
    method CreateTask(userId: int, text: string) returns (t: Task)
      requires Valid()
      modifies this`tasks, this`nextTaskId
      ensures Valid()
      ensures t == Task(old(nextTaskId), userId, text, defaultStatus, false)
      ensures tasks == old(tasks)[t.id := t] && nextTaskId == old(nextTaskId) + 1
    {
      t := Task(nextTaskId, userId, text, defaultStatus, false);
      tasks := tasks[t.id := t];
      nextTaskId := nextTaskId + 1;
    }

    /** `task.update({ where: { id, userId }, data })` of a row that exists. */
    method UpdateTask(id: int, userId: int, data: TaskPatch) returns (t: Task)
      requires Valid()
      requires id in tasks && tasks[id].userId == userId
      modifies this`tasks
      ensures Valid()
      ensures t == ApplyTaskPatch(old(tasks)[id], data)
      ensures tasks == old(tasks)[id := t]
    {
      t := ApplyTaskPatch(tasks[id], data);
      tasks := tasks[id := t];
    }
  }
}
