/** The records of lib/types.ts as immutable values, plus a snapshot of the
    whole record store.

    Conventions shared by the whole model:
    - a string field that JavaScript tests with `!x` is "" when absent or empty;
    - a date string is an `Option<Instant>`: `None` when absent or empty,
      `Unparsable` when `new Date(s)` yields an invalid date;
    - numbers are `real` (exact), milliseconds are `int`. */
module Entities {
  import opened Wrappers

  /** A date string after `new Date(...)`: its time value in milliseconds since
      the epoch, or an invalid date, whose time value is NaN and therefore
      compares false with everything. */
  datatype Instant = At(ms: int) | Unparsable

  datatype User = User(
    userId: string,
    farcasterId: Option<string>,
    name: string,
    role: string,
    skills: seq<string>,
    avatar: Option<string>)

  datatype Project = Project(
    projectId: string,
    projectName: string,
    dueDate: Option<Instant>,
    status: string,
    progress: real,
    assignedUsers: seq<string>)

  /** `status` is a free string: the declared type lists `in-progress`, but the
      frame handler and the task card write and expect `in_progress`. */
  datatype Task = Task(
    taskId: string,
    projectId: string,
    assignedUserId: string,
    description: string,
    status: string,
    startTime: Option<Instant>,
    endTime: Option<Instant>,
    estimatedEffort: real,
    actualEffort: Option<real>,
    priority: string)

  /** `availability` is a percentage the source never range-checks. */
  datatype Resource = Resource(
    resourceId: string,
    resourceName: string,
    resourceType: string,
    availability: real,
    currentAssignments: seq<string>,
    skills: Option<seq<string>>)

  /** An activity-log entry; `kind` is the JSON field `type`. */
  datatype Activity = Activity(
    id: string,
    kind: string,
    description: string,
    timestamp: Option<Instant>,
    userId: Option<string>,
    taskId: Option<string>,
    projectId: Option<string>)

  /** A point-in-time copy of the five JSON collections of the record store. */
  datatype Store = Store(
    users: seq<User>,
    projects: seq<Project>,
    tasks: seq<Task>,
    resources: seq<Resource>,
    activities: seq<Activity>)

  const Pending := "pending"
  const Completed := "completed"
  /** The spelling written by the frame handler and the task card. */
  const InProgressUnderscore := "in_progress"
  /** The spelling declared by the Task type in lib/types.ts. */
  const InProgressHyphen := "in-progress"
  const Blocked := "blocked"
  const Active := "active"

  predicate IsCompleted(t: Task) {
    t.status == Completed
  }

  predicate IsActive(p: Project) {
    p.status == Active
  }
}
