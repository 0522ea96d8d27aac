/** app/api/tasks/route.ts: listing tasks with an optional filter, and
    creating a task from a JSON body. A query parameter or body string that is
    absent or empty is "". */
module TasksRoute {
  import opened Wrappers
  import opened Entities
  import opened Collections
  import opened Http
  import opened Database

  /** `GET /api/tasks`: a project filter wins over a user filter; with
      neither, every task. */
  function TasksGet(tasks: seq<Task>, projectId: string, userId: string): (r: seq<Task>)
    ensures projectId != "" ==> r == GetTasksByProject(tasks, projectId)
    ensures projectId == "" && userId != "" ==> r == GetTasksByUser(tasks, userId)
    ensures projectId == "" && userId == "" ==> r == tasks
  {
    if projectId != "" then GetTasksByProject(tasks, projectId)
    else if userId != "" then GetTasksByUser(tasks, userId)
    else tasks
  }

  /** With a project filter the user filter is ignored, and every listed task
      belongs to the filter that won. */
  lemma TasksGetPrecedence(tasks: seq<Task>, projectId: string, userId: string, otherUserId: string)
    ensures projectId != "" ==> TasksGet(tasks, projectId, userId) == TasksGet(tasks, projectId, otherUserId)
    ensures projectId != "" ==>
      forall i :: 0 <= i < |TasksGet(tasks, projectId, userId)| ==>
        TasksGet(tasks, projectId, userId)[i].projectId == projectId
    ensures projectId == "" && userId != "" ==>
      forall i :: 0 <= i < |TasksGet(tasks, projectId, userId)| ==>
        TasksGet(tasks, projectId, userId)[i].assignedUserId == userId
  {
  }

  /** The JSON body of `POST /api/tasks`. `estimatedEffort` is `None` when the
      field is not a JSON number. */
  datatype TaskBody = TaskBody(
    projectId: string,
    assignedUserId: string,
    description: string,
    estimatedEffort: Option<real>,
    status: string,
    actualEffort: Option<real>,
    startTime: Option<Instant>,
    endTime: Option<Instant>,
    priority: string)

  const MissingTaskFields := ApiError(BadRequest, "Missing required fields: projectId, assignedUserId, description, estimatedEffort")
  const DefaultPriority := "medium"

  predicate ValidTaskBody(body: TaskBody) {
    body.projectId != "" && body.assignedUserId != "" && body.description != ""
    && body.estimatedEffort.Some?
  }

  /** `POST /api/tasks`: rejects a body without a project, an assignee or a
      description, or whose effort is not a number; otherwise appends the task
      under `freshId`, with status `pending` and priority `medium` when those
      are not given, and the optional times and actual effort as given. */
  function TasksPost(tasks: seq<Task>, body: TaskBody, freshId: string): (r: Result<Written<Task>, ApiError>)
    ensures r.Failure? <==> !ValidTaskBody(body)
    ensures r.Failure? ==> r.error == MissingTaskFields
    ensures r.Success? ==>
      var t := r.value.record;
      && r.value.items == tasks + [t]
      && t.taskId == freshId
      && t.projectId == body.projectId && t.assignedUserId == body.assignedUserId
      && t.description == body.description
      && t.estimatedEffort == body.estimatedEffort.value
      && t.actualEffort == body.actualEffort
      && t.startTime == body.startTime && t.endTime == body.endTime
      && (body.status != "" ==> t.status == body.status)
      && (body.status == "" ==> t.status == Pending)
      && (body.priority != "" ==> t.priority == body.priority)
      && (body.priority == "" ==> t.priority == DefaultPriority)
  {
    if !ValidTaskBody(body) then Failure(MissingTaskFields)
    else
      var draft := Task("", body.projectId, body.assignedUserId, body.description,
                        if body.status != "" then body.status else Pending,
                        body.startTime, body.endTime, body.estimatedEffort.value, body.actualEffort,
                        if body.priority != "" then body.priority else DefaultPriority);
      var w := CreateTask(tasks, draft, freshId);
      assert w.items == tasks + [w.record];
      Success(w)
  }

  /** The check is on the type only: any number, zero and negative included,
      is accepted as the estimate. */
  lemma AnyEffortAccepted(tasks: seq<Task>, body: TaskBody, freshId: string)
    requires body.projectId != "" && body.assignedUserId != "" && body.description != ""
    requires body.estimatedEffort.Some? && body.estimatedEffort.value <= 0.0
    ensures TasksPost(tasks, body, freshId).Success?
  {
  }

  /** A created task is listed last under its project, after the project's
      earlier tasks, and is found by its new id. */
  lemma PostThenListByProject(tasks: seq<Task>, body: TaskBody, freshId: string, userId: string)
    requires TasksPost(tasks, body, freshId).Success?
    requires forall i :: 0 <= i < |tasks| ==> tasks[i].taskId != freshId
    ensures var w := TasksPost(tasks, body, freshId).value;
      && TasksGet(w.items, body.projectId, userId) == TasksGet(tasks, body.projectId, userId) + [w.record]
      && GetTaskById(w.items, freshId) == Some(w.record)
  {
    var w := TasksPost(tasks, body, freshId).value;
    var t := w.record;
    assert w.items == tasks + [t] && t.taskId == freshId && t.projectId == body.projectId;
    TasksByProjectAppend(tasks, [t], body.projectId);
    assert GetTasksByProject([t], body.projectId) == [t];
    FindFirstAppend(tasks, t, (x: Task) => x.taskId == freshId);
  }
}
