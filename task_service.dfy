/**
 * The task service: create, list, get, update and soft-delete of a user's
 * tasks, the pagination arithmetic of the list, and the mapping of every error
 * to an HTTP exception. A task is visible to its owner until it is soft-deleted;
 * from then on every operation on it reports that it does not exist.
 */
module TaskService {
  import opened Wrappers
  import opened Errors
  import opened Zod
  import opened TaskValidation
  import opened Model
  import opened Database

  const TaskNotFound := "Tugas tidak ditemukan."
  const Unexpected := "Terjadi kesalahan yang tidak terduga. Silakan coba lagi nanti."
  const TaskDeleted := "Tugas berhasil dihapus."

  /** The task with the id exists, belongs to the user and is not soft-deleted. */
  predicate Live(tasks: map<int, Task>, id: int, userId: int)
  {
    id in tasks && tasks[id].userId == userId && !tasks[id].isDeleted
  }

  /** handleError: a ZodError becomes a BadRequest with its issues, a BadRequest or a
      NotFound is rethrown, and everything else becomes an InternalServerError with a
      generic text that reveals nothing of the cause. */
  function HandleError(e: Exception): (r: Exception)
    ensures r.IsHttp()
    ensures e.ZodError? ==> r == BadRequest(IssueList(e.issues))
    ensures e.BadRequest? || e.NotFound? ==> r == e
    ensures !(e.ZodError? || e.BadRequest? || e.NotFound?) ==> r == InternalServerError(Text(Unexpected))
  {
    if e.ZodError? then BadRequest(IssueList(e.issues))
    else if e.BadRequest? || e.NotFound? then e
    else InternalServerError(Text(Unexpected))
  }

  /** Mapping an error that the mapping produced changes nothing. */
  lemma HandleErrorIdempotent(e: Exception)
    ensures HandleError(HandleError(e)) == HandleError(e)
  {
  }

  /** The response of a task: every column but the timestamps. */
  function ToTaskResponse(t: Task): (r: TaskResponse)
    ensures r.id == t.id && r.userId == t.userId && r.task == t.task
    ensures r.status == t.status && r.isDeleted == t.isDeleted
  {
    TaskResponse(t.id, t.userId, t.task, t.status, t.isDeleted)
  }

  /** The response loses nothing that the model stores: distinct tasks give distinct responses. */
  lemma ToTaskResponseInjective(a: Task, b: Task)
    ensures ToTaskResponse(a) == ToTaskResponse(b) ==> a == b
  {
  }

  /** `tasks.map(toTaskResponse)`. */
  function Responses(rows: seq<Task>): (r: seq<TaskResponse>)
    ensures |r| == |rows|
    ensures forall k :: 0 <= k < |r| ==> r[k] == ToTaskResponse(rows[k])
  {
    seq(|rows|, k requires 0 <= k < |rows| => ToTaskResponse(rows[k]))
  }

  /** The number of rows the list skips, `(page - 1) * limit`: the rows of the pages
      before `page`, and negative for a page below 1. */
  function Skip(page: int, limit: int): (r: int)
    requires limit > 0
    ensures r == (page - 1) * limit
    ensures r < 0 <==> page < 1
  {
    SignOfProduct(page - 1, limit);
    (page - 1) * limit
  }

  lemma SignOfProduct(k: int, d: int)
    requires d > 0
    ensures k * d < 0 <==> k < 0
  {
  }

  /** `Math.ceil(total / limit)`: the fewest pages of `limit` rows that hold `total` rows. */
  function TotalPages(total: nat, limit: int): (r: nat)
    requires limit > 0
    ensures r * limit >= total
    ensures total > 0 ==> (r - 1) * limit < total
    ensures r == 0 <==> total == 0
  {
    var q := (total + limit - 1) / limit;
    var m := (total + limit - 1) % limit;
    assert total + limit - 1 == q * limit + m && 0 <= m < limit;
    assert (q - 1) * limit == q * limit - limit;
    q
  }

  /** No smaller number of pages holds `total` rows. */
  lemma TotalPagesIsLeast(total: nat, limit: int, n: int)
    requires limit > 0 && n * limit >= total
    ensures n >= TotalPages(total, limit)
  {
    var r := TotalPages(total, limit);
    if total > 0 {
      assert n * limit - (r - 1) * limit == (n - r + 1) * limit;
      PositiveFactor(n - r + 1, limit);
    } else {
      assert (n + 1) * limit == n * limit + limit;
      PositiveFactor(n + 1, limit);
    }
  }

  lemma PositiveFactor(x: int, c: int)
    requires c > 0 && x * c > 0
    ensures x > 0
  {
  }

  lemma TotalPagesMonotone(a: nat, b: nat, limit: int)
    requires limit > 0 && a <= b
    ensures TotalPages(a, limit) <= TotalPages(b, limit)
  {
    TotalPagesIsLeast(a, limit, TotalPages(b, limit));
  }

  /** The total_page of the list counts soft-deleted rows, so it is never less than
      the number of pages the user's visible rows fill. */
  lemma TotalPagesCoverVisible(tasks: map<int, Task>, userId: int, n: int, limit: int)
    requires limit > 0
    ensures TotalPages(|SelectTasks(tasks, userId, true, n)|, limit)
         <= TotalPages(|SelectTasks(tasks, userId, false, n)|, limit)
  {
    LiveTasksAtMostAll(tasks, userId, n);
    TotalPagesMonotone(|SelectTasks(tasks, userId, true, n)|, |SelectTasks(tasks, userId, false, n)|, limit);
  }

  /** It can also be more: one visible and one soft-deleted row at one row per page
      give total_page 2, while page 2 is empty. */
  lemma DeletedTaskAddsAPage()
    ensures var tasks := map[1 := Task(1, 7, "a", BelumSelesai, false), 2 := Task(2, 7, "b", BelumSelesai, true)];
      && TotalPages(|SelectTasks(tasks, 7, false, 3)|, 1) == 2
      && |SelectTasks(tasks, 7, true, 3)| == 1
  {
    var tasks := map[1 := Task(1, 7, "a", BelumSelesai, false), 2 := Task(2, 7, "b", BelumSelesai, true)];
    assert SelectTasks(tasks, 7, false, 2) == [tasks[1]];
    assert SelectTasks(tasks, 7, true, 2) == [tasks[1]];
  }

  datatype Paging = Paging(size: int, current_page: int, total_page: nat)

  datatype ListResponse = ListResponse(data: seq<TaskResponse>, paging: Paging)

  class TaskService {
    const db: Database
    /** zod's email check, handed to the validator; the task schemas never consult it. */
    const isEmail: string -> bool

    constructor (db: Database, isEmail: string -> bool)
      ensures this.db == db && this.isEmail == isEmail
    {
      this.db, this.isEmail := db, isEmail;
    }

    /** The live task with the id and owner, or a NotFound. */
    method CheckExistingTask(id: int, userId: int) returns (r: Result<Task, Exception>)
      ensures r.Success? <==> Live(db.tasks, id, userId)
      ensures r.Success? ==> r.value == db.tasks[id]
      ensures r.Failure? ==> r.error == NotFound(Text(TaskNotFound))
    {
      var task := db.FindFirstTask(id, userId);
      if task.None? {
        r := Failure(NotFound(Text(TaskNotFound)));
        return;
      }
      r := Success(task.value);
    }

    /** Adds one task owned by `user` with the validated text; the body's own userId
        is checked but not used. */
    method Create(user: User, request: Input) returns (r: Result<TaskResponse, Exception>)
      requires db.Valid()
      modifies db
      ensures db.Valid()
      ensures r.Failure? ==> unchanged(db)
      ensures db.users == old(db.users) && db.emailIndex == old(db.emailIndex)
      ensures db.accounts == old(db.accounts) && db.nextUserId == old(db.nextUserId)
      ensures !CreateRule(request) ==> r == Failure(BadRequest(IssueList(Issues(isEmail, CREATE, request))))
      ensures CreateRule(request) ==>
        var t := Task(old(db.nextTaskId), user.id, request["task"].s, db.defaultStatus, false);
        && t.id !in old(db.tasks)
        && db.tasks == old(db.tasks)[t.id := t] && db.nextTaskId == old(db.nextTaskId) + 1
        && r == Success(TaskResponse(t.id, user.id, request["task"].s, db.defaultStatus, false))
    {
      var validated := ValidateCreate(isEmail, request);
      if validated.Failure? {
        r := Failure(HandleError(validated.error));
        return;
      }
      var task := db.CreateTask(user.id, validated.value.task);
      r := Success(ToTaskResponse(task));
    }

    /** Page `page` of the user's live tasks in id order, `limit` to a page, with a
        page count taken over all of the user's tasks, soft-deleted ones included. A
        page below 1 gives a negative skip, which the store refuses. */
    method List(user: User, limit: int, page: int) returns (r: Result<ListResponse, Exception>)
      requires db.Valid()
      requires limit > 0
      ensures page < 1 ==> r == Failure(InternalServerError(Text(Unexpected)))
      ensures page >= 1 ==> r.Success?
      ensures r.Success? ==>
        r.value.paging == Paging(limit, page, TotalPages(|set id | id in db.tasks && db.tasks[id].userId == user.id|, limit))
      ensures r.Success? ==> var live := SelectTasks(db.tasks, user.id, true, db.nextTaskId);
        var skip := (page - 1) * limit;
        && |r.value.data| == (if skip >= |live| then 0 else if |live| - skip < limit then |live| - skip else limit)
        && forall k :: 0 <= k < |r.value.data| ==> r.value.data[k] == ToTaskResponse(live[skip + k])
      ensures r.Success? ==> forall k :: 0 <= k < |r.value.data| ==>
        r.value.data[k].userId == user.id && !r.value.data[k].isDeleted
        && r.value.data[k].id in db.tasks && ToTaskResponse(db.tasks[r.value.data[k].id]) == r.value.data[k]
    {
      var skip := Skip(page, limit);
      var tasks := db.FindManyTasks(user.id, skip, limit);
      var total := db.CountTasks(user.id);
      if tasks.Failure? {
        r := Failure(HandleError(tasks.error));
        return;
      }
      var totalPages := TotalPages(total, limit);
      r := Success(ListResponse(Responses(tasks.value), Paging(limit, page, totalPages)));
    }

    /** The user's live task with the id, or a NotFound. */
    method Get(user: User, id: int) returns (r: Result<TaskResponse, Exception>)
      ensures Live(db.tasks, id, user.id) ==> r == Success(ToTaskResponse(db.tasks[id]))
      ensures !Live(db.tasks, id, user.id) ==> r == Failure(NotFound(Text(TaskNotFound)))
    {
      var task := CheckExistingTask(id, user.id);
      if task.Failure? {
        r := Failure(HandleError(task.error));
        return;
      }
      r := Success(ToTaskResponse(task.value));
    }

    /** Writes the fields present in the body to the user's live task with the body's
        id and leaves the others as they are. */
    method Update(user: User, request: Input) returns (r: Result<TaskResponse, Exception>)
      requires db.Valid()
      modifies db
      ensures db.Valid()
      ensures r.Failure? ==> unchanged(db)
      ensures db.users == old(db.users) && db.emailIndex == old(db.emailIndex) && db.accounts == old(db.accounts)
      ensures db.nextUserId == old(db.nextUserId) && db.nextTaskId == old(db.nextTaskId)
      ensures !UpdateRule(request) ==> r == Failure(BadRequest(IssueList(Issues(isEmail, UPDATE, request))))
      ensures UpdateRule(request) && !old(Live(db.tasks, request["id"].n, user.id)) ==>
        r == Failure(NotFound(Text(TaskNotFound)))
      ensures UpdateRule(request) && old(Live(db.tasks, request["id"].n, user.id)) ==>
        var id := request["id"].n;
        && id in db.tasks
        && db.tasks == old(db.tasks)[id := db.tasks[id]]
        && db.tasks[id].id == id && db.tasks[id].userId == user.id
        && db.tasks[id].task == (if "task" in request then request["task"].s else old(db.tasks[id].task))
        && StatusName(db.tasks[id].status)
           == (if "status" in request then request["status"].s else StatusName(old(db.tasks[id].status)))
        && db.tasks[id].isDeleted == ("isDeleted" in request && request["isDeleted"].b)
        && r == Success(ToTaskResponse(db.tasks[id]))
    {
      var validated := ValidateUpdate(isEmail, request);
      if validated.Failure? {
        r := Failure(HandleError(validated.error));
        return;
      }
      var q := validated.value;
      var task := CheckExistingTask(q.id, user.id);
      if task.Failure? {
        r := Failure(HandleError(task.error));
        return;
      }
      var updated := db.UpdateTask(task.value.id, user.id, TaskPatch(q.task, q.status, q.isDeleted));
      r := Success(ToTaskResponse(updated));
    }

    /** Soft-deletes the user's live task with the id: sets isDeleted and nothing else. */
    method Delete(user: User, id: int) returns (r: Result<Done, Exception>)
      requires db.Valid()
      modifies db
      ensures db.Valid()
      ensures db.users == old(db.users) && db.emailIndex == old(db.emailIndex) && db.accounts == old(db.accounts)
      ensures db.nextUserId == old(db.nextUserId) && db.nextTaskId == old(db.nextTaskId)
      ensures old(Live(db.tasks, id, user.id)) ==>
        && db.tasks == old(db.tasks)[id := old(db.tasks[id]).(isDeleted := true)]
        && r == Success(Done(TaskDeleted, true))
      ensures !old(Live(db.tasks, id, user.id)) ==> r == Failure(NotFound(Text(TaskNotFound))) && unchanged(db)
      ensures !Live(db.tasks, id, user.id)
    {
      var task := CheckExistingTask(id, user.id);
      if task.Failure? {
        r := Failure(HandleError(task.error));
        return;
      }
      var _ := db.UpdateTask(task.value.id, user.id, TaskPatch(None, None, Some(true)));
      r := Success(Done(TaskDeleted, true));
    }
  }
}
