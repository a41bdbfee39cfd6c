/**
 * The request schemas of the task module (CREATE, UPDATE), the typed requests
 * they produce, and the acceptance rule of each, proved equivalent to parsing.
 */
module TaskValidation {
  import opened Wrappers
  import opened Errors
  import opened Zod
  import opened Model

  const TaskEmpty := "Deskripsi tugas tidak boleh kosong."

  const TaskChecks: seq<StringCheck> := [Min(1, Some(TaskEmpty))]

  const StatusNames: seq<string> := ["SELESAI", "BELUM_SELESAI"]

  const CREATE: Schema := [
    Field("userId", ZNumber([Positive(None)]), false),
    Field("task", ZString(TaskChecks), false)
  ]

  const UPDATE: Schema := [
    Field("id", ZNumber([Positive(None)]), false),
    Field("task", ZString(TaskChecks), true),
    Field("status", ZEnum(StatusNames), true),
    Field("isDeleted", ZBoolean, true)
  ]

  datatype CreateTaskRequest = CreateTaskRequest(userId: int, task: string)

  datatype UpdateTaskRequest = UpdateTaskRequest(
    id: int, task: Option<string>, status: Option<TaskStatus>, isDeleted: Option<bool>)

  /** The enum member a status string names, if any. */
  function StatusOf(s: string): (r: Option<TaskStatus>)
  {
    if s == "SELESAI" then Some(Selesai)
    else if s == "BELUM_SELESAI" then Some(BelumSelesai)
    else None
  }

  /** The enum of the UPDATE schema is exactly the TaskStatus enum. */
  lemma StatusEnumIsTaskStatus(s: string, t: TaskStatus)
    ensures s in StatusNames <==> StatusOf(s).Some?
    ensures StatusOf(StatusName(t)) == Some(t)
    ensures StatusOf(s).Some? ==> StatusName(StatusOf(s).value) == s
  {
  }

  function AsCreateTaskRequest(v: Input): CreateTaskRequest
  {
    CreateTaskRequest(GetNumber(v, "userId"), GetString(v, "task"))
  }

  function AsUpdateTaskRequest(v: Input): UpdateTaskRequest
  {
    var status := GetOptionalString(v, "status");
    UpdateTaskRequest(
      GetNumber(v, "id"), GetOptionalString(v, "task"),
      if status.Some? then StatusOf(status.value) else None,
      GetOptionalBool(v, "isDeleted"))
  }

  predicate CreateRule(i: Input)
  {
    NumberAt(i, "userId") && i["userId"].n > 0 && Filled(i, "task")
  }

  predicate UpdateRule(i: Input)
  {
    && NumberAt(i, "id") && i["id"].n > 0
    && ("task" in i ==> Filled(i, "task"))
    && ("status" in i ==> StringAt(i, "status") && StatusOf(i["status"].s).Some?)
    && ("isDeleted" in i ==> i["isDeleted"].JBool?)
  }

  lemma TaskChecksIff(isEmail: string -> bool, s: string)
    ensures (forall j :: 0 <= j < |TaskChecks| ==> PassesString(isEmail, TaskChecks[j], s)) <==> s != ""
  {
    Utf16LengthZero(s);
    assert PassesString(isEmail, TaskChecks[0], s) <==> Utf16Length(s) >= 1;
  }

  /** CREATE accepts a body exactly when userId is a positive number and task a
      non-empty string. */
  lemma CreateAccepts(isEmail: string -> bool, i: Input)
    ensures Parse(isEmail, CREATE, i).Success? <==> CreateRule(i)
  {
    if StringAt(i, "task") { TaskChecksIff(isEmail, i["task"].s); }
    assert (forall j :: 0 <= j < |CREATE| ==> FieldIssues(isEmail, CREATE[j], i) == [])
      <==> (FieldIssues(isEmail, CREATE[0], i) == [] && FieldIssues(isEmail, CREATE[1], i) == []);
  }

  /** UPDATE accepts a body exactly when id is a positive number, task is missing or a
      non-empty string, status is missing or one of the TaskStatus names, and isDeleted
      is missing or a boolean. */
  lemma UpdateAccepts(isEmail: string -> bool, i: Input)
    ensures Parse(isEmail, UPDATE, i).Success? <==> UpdateRule(i)
  {
    var f := UPDATE;
    assert FieldIssues(isEmail, f[0], i) == [] <==> NumberAt(i, "id") && i["id"].n > 0;
    assert FieldIssues(isEmail, f[1], i) == [] <==> ("task" in i ==> Filled(i, "task")) by {
      if StringAt(i, "task") { TaskChecksIff(isEmail, i["task"].s); }
    }
    assert FieldIssues(isEmail, f[2], i) == []
        <==> ("status" in i ==> StringAt(i, "status") && StatusOf(i["status"].s).Some?) by {
      if StringAt(i, "status") { StatusEnumIsTaskStatus(i["status"].s, Selesai); }
    }
    assert FieldIssues(isEmail, f[3], i) == [] <==> ("isDeleted" in i ==> i["isDeleted"].JBool?);
    assert (forall j :: 0 <= j < |f| ==> FieldIssues(isEmail, f[j], i) == [])
      <==> (FieldIssues(isEmail, f[0], i) == [] && FieldIssues(isEmail, f[1], i) == []
        && FieldIssues(isEmail, f[2], i) == [] && FieldIssues(isEmail, f[3], i) == []);
  }

  /** A validated UPDATE body yields the fields of the body: a present field is carried
      over (status as its enum member) and a missing one stays absent. */
  lemma UpdateRequestRoundTrip(isEmail: string -> bool, i: Input)
    requires Parse(isEmail, UPDATE, i).Success?
    ensures var req := AsUpdateTaskRequest(Parse(isEmail, UPDATE, i).value);
      && req.id == i["id"].n && req.id > 0
      && (req.task.Some? <==> "task" in i) && (req.task.Some? ==> req.task.value == i["task"].s && req.task.value != "")
      && (req.status.Some? <==> "status" in i) && (req.status.Some? ==> StatusName(req.status.value) == i["status"].s)
      && (req.isDeleted.Some? <==> "isDeleted" in i) && (req.isDeleted.Some? ==> req.isDeleted.value == i["isDeleted"].b)
  {
    UpdateAccepts(isEmail, i);
    var v := Parse(isEmail, UPDATE, i).value;
    assert Keys(UPDATE) == {"id", "task", "status", "isDeleted"} by {
      assert UPDATE[0].key == "id" && UPDATE[1].key == "task";
      assert UPDATE[2].key == "status" && UPDATE[3].key == "isDeleted";
    }
    if "status" in i { StatusEnumIsTaskStatus(i["status"].s, Selesai); }
  }

  /** A validated CREATE body yields the body's own userId and task. */
  lemma CreateRequestRoundTrip(isEmail: string -> bool, i: Input)
    requires Parse(isEmail, CREATE, i).Success?
    ensures CreateRule(i)
    ensures AsCreateTaskRequest(Parse(isEmail, CREATE, i).value) == CreateTaskRequest(i["userId"].n, i["task"].s)
  {
    CreateAccepts(isEmail, i);
    assert CREATE[0].key == "userId" && CREATE[1].key == "task";
    assert {"userId", "task"} <= Keys(CREATE);
  }

  // `validationService.validate(schema, request)` for each schema: the typed request
  // of a body the schema accepts, or the schema's ZodError.

  method ValidateCreate(isEmail: string -> bool, i: Input) returns (r: Result<CreateTaskRequest, Exception>)
    ensures r.Success? <==> CreateRule(i)
    ensures r.Success? ==> r.value == CreateTaskRequest(i["userId"].n, i["task"].s)
    ensures r.Failure? ==> r.error == ZodError(Issues(isEmail, CREATE, i)) && r.error.issues != []
  {
    var parsed := Parse(isEmail, CREATE, i);
    CreateAccepts(isEmail, i);
    if parsed.Failure? {
      r := Failure(parsed.error);
      return;
    }
    CreateRequestRoundTrip(isEmail, i);
    r := Success(AsCreateTaskRequest(parsed.value));
  }

  method ValidateUpdate(isEmail: string -> bool, i: Input) returns (r: Result<UpdateTaskRequest, Exception>)
    ensures r.Success? <==> UpdateRule(i)
    ensures r.Success? ==>
      && r.value.id == i["id"].n && r.value.id > 0
      && (r.value.task.Some? <==> "task" in i) && (r.value.task.Some? ==> r.value.task.value == i["task"].s)
      && (r.value.status.Some? <==> "status" in i)
      && (r.value.status.Some? ==> StatusName(r.value.status.value) == i["status"].s)
      && (r.value.isDeleted.Some? <==> "isDeleted" in i)
      && (r.value.isDeleted.Some? ==> r.value.isDeleted.value == i["isDeleted"].b)
    ensures r.Failure? ==> r.error == ZodError(Issues(isEmail, UPDATE, i)) && r.error.issues != []
  {
    var parsed := Parse(isEmail, UPDATE, i);
    UpdateAccepts(isEmail, i);
    if parsed.Failure? {
      r := Failure(parsed.error);
      return;
    }
    UpdateRequestRoundTrip(isEmail, i);
    r := Success(AsUpdateTaskRequest(parsed.value));
  }
}
