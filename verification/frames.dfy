/** The Farcaster frame endpoint of app/api/frames/route.ts: a POST that moves
    one task through its status on behalf of the user assigned to it, and a GET
    that describes the frame for a task. The signature check is a stub that
    accepts every request, so it has no branch here; the response's URLs and
    image come from the environment and are left out. */
module Frames {
  import opened Wrappers
  import opened Entities
  import opened Collections
  import opened Http
  import opened Database

  datatype FrameRequest = FrameRequest(action: string, taskId: string, farcasterId: string)

  const MarkComplete := "mark_complete"
  const MarkInProgress := "mark_in_progress"
  const MarkPending := "mark_pending"

  /** The activity type the handler logs. */
  const TaskUpdate := "task_update"

  const MissingFields := ApiError(BadRequest, "Missing required fields: action, taskId, farcasterId")
  const UserNotFound := ApiError(NotFound, "User not found")
  const TaskNotFound := ApiError(NotFound, "Task not found")
  const NotAssigned := ApiError(Forbidden, "User not assigned to this task")
  const InvalidAction := ApiError(BadRequest, "Invalid action")
  const UpdateFailed := ApiError(InternalError, "Failed to update task")
  const TaskIdRequired := ApiError(BadRequest, "Task ID required")

  /** A handled action: the record store afterwards and the message shown. */
  datatype FrameOutcome = FrameOutcome(store: Store, message: string)

  /** `action`, `taskId` and `farcasterId` are all present and non-empty. */
  predicate HasFields(req: FrameRequest) {
    req.action != "" && req.taskId != "" && req.farcasterId != ""
  }

  predicate IsFrameAction(action: string) {
    action in {MarkComplete, MarkInProgress, MarkPending}
  }

  /** The update each action sends; the clock is `now`. Marking pending
      assigns `undefined` to both times, which the merge copies and the JSON
      write then drops. */
  function ActionPatch(action: string, now: int): (r: Option<TaskPatch>)
    ensures r.Some? <==> IsFrameAction(action)
    ensures r.Some? ==> r.value.taskId.None? && r.value.status.Some?
    ensures action == MarkComplete ==>
      r == Some(NoTaskChange.(status := Some(Completed), endTime := Some(Some(At(now)))))
    ensures action == MarkInProgress ==>
      r == Some(NoTaskChange.(status := Some(InProgressUnderscore), startTime := Some(Some(At(now)))))
    ensures action == MarkPending ==>
      r == Some(NoTaskChange.(status := Some(Pending), startTime := Some(None), endTime := Some(None)))
  {
    if action == MarkComplete then
      Some(NoTaskChange.(status := Some(Completed), endTime := Some(Some(At(now)))))
    else if action == MarkInProgress then
      Some(NoTaskChange.(status := Some(InProgressUnderscore), startTime := Some(Some(At(now)))))
    else if action == MarkPending then
      Some(NoTaskChange.(status := Some(Pending), startTime := Some(None), endTime := Some(None)))
    else None
  }

  function Quoted(s: string): string {
    "\"" + s + "\""
  }

  /** The confirmation for an action on a task with the given description. */
  function ActionMessage(action: string, description: string): (m: string)
    requires IsFrameAction(action)
  {
    if action == MarkComplete then "\U{2705} Task " + Quoted(description) + " marked as completed!"
    else if action == MarkInProgress then "\U{1F680} Started working on " + Quoted(description)
    else "\U{23F8}\U{FE0F} Task " + Quoted(description) + " marked as pending"
  }

  /** The three messages differ, and each quotes the description whole. */
  lemma ActionMessagesDistinct(description: string)
    ensures ActionMessage(MarkComplete, description) != ActionMessage(MarkInProgress, description)
    ensures ActionMessage(MarkComplete, description) != ActionMessage(MarkPending, description)
    ensures ActionMessage(MarkInProgress, description) != ActionMessage(MarkPending, description)
    ensures ActionMessage(MarkComplete, description)[7..7 + |description| + 2] == Quoted(description)
    ensures ActionMessage(MarkInProgress, description)[21..] == Quoted(description)
    ensures ActionMessage(MarkPending, description)[8..8 + |description| + 2] == Quoted(description)
  {
    assert ActionMessage(MarkComplete, description)[0] == '\U{2705}';
    assert ActionMessage(MarkInProgress, description)[0] == '\U{1F680}';
    assert ActionMessage(MarkPending, description)[0] == '\U{23F8}';
  }

  /** The POST handler. Its checks run in the source's order and the first one
      that fails decides the error; on success the task is merged with the
      action's update and one `task_update` activity, without a timestamp, is
      appended under `activityId`. */
  function HandleFrameAction(store: Store, req: FrameRequest, now: int, activityId: string): (r: Result<FrameOutcome, ApiError>)
    ensures r.Success? ==>
      && r.value.store.users == store.users
      && r.value.store.projects == store.projects
      && r.value.store.resources == store.resources
      && |r.value.store.tasks| == |store.tasks|
      && |r.value.store.activities| == |store.activities| + 1
      && r.value.store.activities[..|store.activities|] == store.activities
    ensures r.Success? ==> IsFrameAction(req.action)
  {
    if !HasFields(req) then Failure(MissingFields)
    else match GetUserByFarcasterId(store.users, req.farcasterId)
      case None => Failure(UserNotFound)
      case Some(user) =>
        match GetTaskById(store.tasks, req.taskId)
        case None => Failure(TaskNotFound)
        case Some(task) =>
          if task.assignedUserId != user.userId then Failure(NotAssigned)
          else match ActionPatch(req.action, now)
            case None => Failure(InvalidAction)
            case Some(patch) =>
              match UpdateTask(store.tasks, req.taskId, patch)
              case None => Failure(UpdateFailed)
              case Some(w) =>
                var message := ActionMessage(req.action, task.description);
                var entry := Activity("", TaskUpdate, message, None, Some(user.userId),
                                      Some(req.taskId), Some(task.projectId));
                var logged := CreateActivity(store.activities, entry, activityId);
                Success(FrameOutcome(store.(tasks := w.items, activities := logged.items), message))
  }

  /** The first failing check decides the response: missing fields, then an
      unknown user, then an unknown task, then a task assigned to someone else,
      then an unknown action. A request that passes every check succeeds: the
      update itself cannot fail, because it looks the task up by the same id
      in the same snapshot, so the 500 branch is unreachable. */
  lemma FrameChecksInOrder(store: Store, req: FrameRequest, now: int, activityId: string)
    ensures var r := HandleFrameAction(store, req, now, activityId);
      var user := GetUserByFarcasterId(store.users, req.farcasterId);
      var task := GetTaskById(store.tasks, req.taskId);
      && (!HasFields(req) <==> r == Failure(MissingFields))
      && (r == Failure(UserNotFound) <==> HasFields(req) && user.None?)
      && (r == Failure(TaskNotFound) <==>
            HasFields(req) && user.Some? && task.None?)
      && (r == Failure(NotAssigned) <==>
            HasFields(req) && user.Some? && task.Some?
            && task.value.assignedUserId != user.value.userId)
      && (r == Failure(InvalidAction) <==>
            HasFields(req) && user.Some? && task.Some?
            && task.value.assignedUserId == user.value.userId && !IsFrameAction(req.action))
      && (r.Success? <==>
            HasFields(req) && user.Some? && task.Some?
            && task.value.assignedUserId == user.value.userId && IsFrameAction(req.action))
      && r != Failure(UpdateFailed)
  {
    var task := GetTaskById(store.tasks, req.taskId);
    if task.Some? {
      match ActionPatch(req.action, now)
      case None =>
      case Some(patch) => UpdateTaskFindsSameRecord(store.tasks, req.taskId, patch);
    }
  }

  /** On success the task under the requested id becomes the task it was,
      merged with the action's update; every other id finds what it found
      before; and the newest activity names the user, the task, its project and
      the message. */
  lemma {:induction false} FrameActionEffect(store: Store, req: FrameRequest, now: int, activityId: string, otherId: string)
    ensures var r := HandleFrameAction(store, req, now, activityId);
      r.Success? ==>
        && GetTaskById(store.tasks, req.taskId).Some?
        && GetUserByFarcasterId(store.users, req.farcasterId).Some?
        && var before := GetTaskById(store.tasks, req.taskId).value;
        var user := GetUserByFarcasterId(store.users, req.farcasterId).value;
        && GetTaskById(r.value.store.tasks, req.taskId) == Some(ActionPatch(req.action, now).value.Apply(before))
        && (otherId != req.taskId ==> GetTaskById(r.value.store.tasks, otherId) == GetTaskById(store.tasks, otherId))
        && r.value.message == ActionMessage(req.action, before.description)
        && GetActivities(r.value.store.activities, 1)
           == [Activity(activityId, TaskUpdate, r.value.message, None, Some(user.userId),
                        Some(req.taskId), Some(before.projectId))]
  {
    if HandleFrameAction(store, req, now, activityId).Success? {
      var patch := ActionPatch(req.action, now).value;
      UpdateTaskFindsSameRecord(store.tasks, req.taskId, patch);
      UpdateTaskThenGet(store.tasks, req.taskId, patch, otherId);
    }
  }

  /** The three transitions, stated on the task the handler finds afterwards:
      completing sets the status and the end time; starting sets the
      underscore status and the start time; resetting to pending clears both
      times. Nothing else in the task changes. */
  lemma FrameTransitions(store: Store, req: FrameRequest, now: int, activityId: string)
    ensures var r := HandleFrameAction(store, req, now, activityId);
      r.Success? ==>
        var before := GetTaskById(store.tasks, req.taskId).value;
        var after := GetTaskById(r.value.store.tasks, req.taskId);
        && (req.action == MarkComplete ==> after == Some(before.(status := Completed, endTime := Some(At(now)))))
        && (req.action == MarkInProgress ==>
              after == Some(before.(status := InProgressUnderscore, startTime := Some(At(now)))))
        && (req.action == MarkPending ==>
              after == Some(before.(status := Pending, startTime := None, endTime := None)))
  {
    FrameActionEffect(store, req, now, activityId, req.taskId);
  }

  // ---------------------------------------------------------------------
  // GET: the frame for one task

  const MarkPendingLabel := "Mark Pending"
  const MarkCompleteLabel := "Mark Complete"

  /** The label of the frame's action button. */
  function FrameButtonLabel(task: Task): (shown: string)
    ensures shown == MarkPendingLabel <==> task.status == Completed
    ensures shown == MarkCompleteLabel <==> task.status != Completed
  {
    if task.status == Completed then MarkPendingLabel else MarkCompleteLabel
  }

  /** The GET handler's answer: the button label for the task, or the error.
      The handler also looks up the task's project and assigned user but uses
      neither in its answer. */
  function FrameMetadata(store: Store, taskId: string): (r: Result<string, ApiError>)
    ensures taskId == "" <==> r == Failure(TaskIdRequired)
    ensures r == Failure(TaskNotFound) <==> taskId != "" && GetTaskById(store.tasks, taskId).None?
    ensures taskId != "" && GetTaskById(store.tasks, taskId).Some? ==>
      r == Success(FrameButtonLabel(GetTaskById(store.tasks, taskId).value))
  {
    if taskId == "" then Failure(TaskIdRequired)
    else match GetTaskById(store.tasks, taskId)
      case None => Failure(TaskNotFound)
      case Some(task) => Success(FrameButtonLabel(task))
  }

  /** The frame's button follows the last action: after completing, it offers
      to reset to pending; after starting or resetting, it offers to
      complete. */
  lemma FrameButtonAfterAction(store: Store, req: FrameRequest, now: int, activityId: string)
    ensures var r := HandleFrameAction(store, req, now, activityId);
      r.Success? ==>
        var shown := FrameMetadata(r.value.store, req.taskId);
        && (req.action == MarkComplete ==> shown == Success(MarkPendingLabel))
        && (req.action != MarkComplete ==> shown == Success(MarkCompleteLabel))
  {
    FrameTransitions(store, req, now, activityId);
  }
}
