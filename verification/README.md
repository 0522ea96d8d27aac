# Task-tracking dashboard: a Dafny model of its core rules

The system is a small project-management app. It stores users, projects,
tasks, resources and an activity log as JSON collections. Around them sit
analytics for a dashboard, a Farcaster frame that lets an assigned user move
a task through its status, a task card that cycles statuses, authentication
by farcasterId, and four CRUD endpoints. This project models those rules over
immutable snapshots of the collections:

- a snapshot is a `Store` of five sequences;
- every write returns the new sequence together with the record written;
- the clock is a parameter `now` in milliseconds;
- a fresh id is a parameter.

Conventions used throughout:

- A string that JavaScript tests with `!x` is `""` when absent or empty.
- A date is `Option<Instant>`: `None` when absent or empty, `Unparsable` when
  `new Date` gives an invalid date. A NaN time value compares false with
  everything, and the model keeps that.
- Percentages, means and efforts are exact `real`s. Counts are `nat`s.
- Statuses are plain strings. The Task type in lib/types.ts:24 declares
  `in-progress`, but the frame handler and the task card write and expect
  `in_progress`. The model keeps both spellings, and
  `Utils.DeclaredStatusesAreColoured` and `TaskCard.HyphenatedStatusResets`
  show the consequences: a task in `in_progress` is shown gray, and a task
  stored as `in-progress` has no successor, so its card button sends it back
  to pending.

Modules, one per source file:

| module | file | models |
|---|---|---|
| `Wrappers` | `wrappers.dfy` | `Option` and `Result` |
| `Entities` | `entities.dfy` | the records of lib/types.ts and the `Store` snapshot |
| `Collections` | `collections.dfy` | `filter`, `find`, `findIndex`, index assignment, `push` and `reverse` on sequences |
| `Ratios` | `ratios.dfy` | `(part / whole) * 100` |
| `Text` | `text.dfy` | decimal printing and ASCII `toLowerCase` |
| `Database` | `database.dfy` | lib/database.ts |
| `Utils` | `utils.dfy` | lib/utils.ts |
| `Http` | `http.dfy` | status codes |
| `Analytics` | `analytics.dfy` | app/api/analytics/route.ts |
| `Frames` | `frames.dfy` | app/api/frames/route.ts |
| `TaskCard` | `taskcard.dfy` | components/TaskCard.tsx |
| `Auth` | `auth.dfy` | lib/auth.ts |
| `TasksRoute`, `UsersRoute`, `ProjectsRoute`, `ResourcesRoute` | `*_route.dfy` | the four CRUD routes |

An error response is a `Failure` that carries no snapshot. A rejected request
therefore leaves the store as it was, by construction. The same holds for an
`update*` whose id is absent: it returns `None` and no new collection.

## Model

| member | source | states |
|---|---|---|
| Collections.Filter | lib/database.ts:97-100 | the survivors of a filter are exactly the input elements that satisfy the predicate, none more and none lost, with no element repeated beyond its multiplicity |
| Collections.FilterAppend | lib/database.ts:133-141 | filtering preserves input order: the filter of a concatenation is the concatenation of the filters |
| Collections.FilterKeepsAll | lib/database.ts:97-100 | when every element passes, the filter is the identity |
| Collections.FilterKeepsLength | lib/database.ts:97-100 | a filter keeps as many elements as it was given exactly when all pass |
| Collections.FilterDropsAll | lib/database.ts:97-100 | a filter is empty exactly when no element passes |
| Collections.FilterCount | lib/database.ts:97-100 | the length of a filter is the number of elements that pass, counted independently |
| Collections.FirstIndex | lib/database.ts:79-80 | `findIndex` is -1 exactly when nothing matches, and otherwise the first matching position |
| Collections.FindFirst | lib/database.ts:56-59 | `find` is `undefined` exactly when nothing matches, and otherwise returns the first match |
| Collections.FindFirstAppend | lib/database.ts:72 | after a push, `find` returns the old first match if there was one, otherwise the pushed element when it matches |
| Collections.FindReplaced | lib/database.ts:82 | replacing an element by one with the same key keeps the first match where it was, and `find` returns the replacement only at that position |
| Collections.UpdateFirst | lib/database.ts:77-85 | a merge-update writes nothing when no record matches; otherwise it replaces only the first matching record and leaves all others unchanged |
| Collections.Reverse | lib/database.ts:198 | `reverse` puts element `n-1-i` at position `i` |
| Ratios.PercentBounds | lib/database.ts:229-230 | a completion share lies in [0, 100]; it is 100 exactly when all are done and 0 exactly when none is |
| Ratios.PercentTimesWhole | lib/database.ts:230 | the share times the whole is 100 times the part |
| Ratios.PercentRange | app/api/analytics/route.ts:83 | a share of a whole is in [0, 100] and is the part's share of the whole |
| Text.Decimal | app/api/analytics/route.ts:102 | a printed count is a non-empty run of decimal digits with no leading zero |
| Text.DecimalRoundTrip | app/api/analytics/route.ts:102 | reading back the printed digits gives the count |
| Text.DecimalInjective | app/api/analytics/route.ts:102 | different counts print differently |
| Text.Lower | lib/auth.ts:99-100 | lower-casing keeps the length, leaves no capital letter and changes only capitals |
| Text.LowerIdempotent | lib/auth.ts:99-100 | lower-casing twice is lower-casing once |
| Text.LowerFixesLowercase | lib/auth.ts:99-100 | a string without capitals is its own lower case |
| Text.LowerExamples | lib/auth.ts:100 | "ADMIN" and "Admin" both lower to "admin" |
| Database.GetUserById | lib/database.ts:56-59 | no user is found exactly when no user has the id; otherwise the first user with it |
| Database.GetUserByFarcasterId | lib/database.ts:61-64 | no user is found exactly when no user carries the farcasterId; otherwise the first that does; users without one never match |
| Database.GetProjectById | lib/database.ts:92-95 | no project is found exactly when none has the id; otherwise the first with it |
| Database.GetTaskById | lib/database.ts:128-131 | no task is found exactly when none has the id; otherwise the first with it |
| Database.GetResourceById | lib/database.ts:169-172 | no resource is found exactly when none has the id; otherwise the first with it |
| Database.GetProjectsByUser | lib/database.ts:97-100 | exactly the stored projects that include the user among their assigned users, each at most as often as stored |
| Database.GetTasksByProject | lib/database.ts:133-136 | exactly the stored tasks of the project, each at most as often as stored |
| Database.GetTasksByUser | lib/database.ts:138-141 | exactly the stored tasks assigned to the user, each at most as often as stored |
| Database.TasksByProjectAppend | lib/database.ts:133-136 | the project filter keeps the stored order |
| Database.TasksByUserAppend | lib/database.ts:138-141 | the user filter keeps the stored order |
| Database.ProjectsByUserAppend | lib/database.ts:97-100 | the assigned-user filter keeps the stored order |
| Database.UserPatch.Apply | lib/database.ts:82 | every user field the update supplies takes the update's value, an explicit `undefined` clears an optional one, and every field it does not supply is unchanged |
| Database.ProjectPatch.Apply | lib/database.ts:118 | every project field the update supplies takes the update's value, an explicit `undefined` clears the due date, and every field it does not supply is unchanged |
| Database.TaskPatch.Apply | lib/database.ts:158 | every task field the update supplies takes the update's value, an explicit `undefined` clears an optional one, and every field it does not supply is unchanged |
| Database.ResourcePatch.Apply | lib/database.ts:189 | every resource field the update supplies takes the update's value, an explicit `undefined` clears the skills, and every field it does not supply is unchanged |
| Database.TaskPatchMerges | lib/database.ts:158 | a supplied status, start time or end time takes the update's value, and an explicit `undefined` clears a time (the fields the frame handler writes); merging the same update twice changes nothing, and the empty update changes nothing |
| Database.UpdateUser | lib/database.ts:77-85 | null exactly when no user has the id; otherwise only the first such user is replaced, by its merge with the update |
| Database.UpdateProject | lib/database.ts:113-121 | null exactly when no project has the id; otherwise only the first such project is replaced, by its merge with the update |
| Database.UpdateTask | lib/database.ts:154-162 | null exactly when no task has the id; otherwise only the first such task is replaced, by its merge with the update |
| Database.UpdateResource | lib/database.ts:185-193 | null exactly when no resource has the id; otherwise only the first such resource is replaced, by its merge with the update |
| Database.UpdateTaskFindsSameRecord | lib/database.ts:128-162 | an update succeeds exactly when the lookup finds the task, and writes the merge of the task the lookup finds |
| Database.UpdateTaskThenGet | lib/database.ts:154-162 | after an update that keeps the id, the lookup finds the merged task, and every other id finds what it found before |
| Database.CreateUser | lib/database.ts:66-75 | exactly one user is appended after the existing ones; it is the given record with the fresh id |
| Database.CreateProject | lib/database.ts:102-111 | exactly one project is appended after the existing ones; it is the given record with the fresh id |
| Database.CreateTask | lib/database.ts:143-152 | exactly one task is appended after the existing ones; it is the given record with the fresh id |
| Database.CreateResource | lib/database.ts:174-183 | exactly one resource is appended after the existing ones; it is the given record with the fresh id |
| Database.CreateActivity | lib/database.ts:201-210 | exactly one activity is appended after the existing ones; it is the given entry with the fresh id |
| Database.CreateTaskThenGet | lib/database.ts:128-152 | a task created under an unused id is then found by it, and every other id finds what it found before |
| Database.CreateUserThenGetByFarcasterId | lib/database.ts:61-75 | a user created with an unused farcasterId is then found by it |
| Database.SliceStart | lib/database.ts:198 | `slice(-limit)` starts `min(limit, n)` entries from the end for a positive limit, at 0 for a zero limit, and `min(-limit, n)` entries from the front for a negative limit |
| Database.GetActivities | lib/database.ts:196-199 | the window is the log's tail, newest first |
| Database.ActivitiesWindow | lib/database.ts:196-199 | a positive limit returns the newest min(limit, n) entries, newest first; a zero limit, or one at least n, returns the whole log reversed |
| Database.Bump | lib/database.ts:216 | `acc[s] = (acc[s] or 0) + 1` adds 1 to the entry for `s`, or appends `s` with count 1, keeping keys distinct and adding 1 to the total |
| Database.BumpKeys | lib/database.ts:216 | after one step of the reduce the keys are the old keys plus the bumped status |
| Database.TasksByStatus | lib/database.ts:213-219 | the status histogram never has two entries for one status |
| Database.TasksByStatusKeys | lib/database.ts:213-219 | the histogram has an entry for a status exactly when some task carries it |
| Database.TasksByStatusCounts | lib/database.ts:213-219 | every entry counts exactly the tasks with its status and is at least 1 |
| Database.TasksByStatusTotal | lib/database.ts:213-219 | the counts add up to the number of tasks |
| Database.CountStatusAbsent | lib/database.ts:216 | a status no task carries is counted 0 |
| Database.AbsentStatusOmitted | lib/database.ts:213-219 | a status is missing from the histogram exactly when no task has it |
| Database.CompletedCountAgrees | app/api/analytics/route.ts:35 | the histogram's count of `completed` equals the dashboard's count of completed tasks |
| Database.ProgressOf | lib/database.ts:226-232 | a project's progress keeps its id and name, lies in [0, 100], is 0 with no tasks, and otherwise is 100 times its completed tasks over its tasks |
| Database.ProjectProgress | lib/database.ts:221-234 | one entry per project, in project order, each with the project's id, name and progress |
| Database.ProgressExtremes | lib/database.ts:227-230 | progress is 100 exactly when the project has tasks and all are completed, and 0 exactly when none of its tasks is completed |
| Database.ResourceUtilization | lib/database.ts:236-243 | one entry per resource, in order, with its id, its name and its availability copied verbatim as the utilization |
| Utils.StatusColor | lib/utils.ts:44-60 | every status gets one of five colours: green exactly for completed/active, blue for in-progress, red for delayed/blocked, yellow for pending/idle, gray otherwise |
| Utils.DeclaredStatusesAreColoured | lib/utils.ts:44-60 | every declared task and project status has a colour, while the `in_progress` spelling the handlers write shows gray |
| Utils.EfficiencyTrend | lib/utils.ts:62-66 | up exactly when the score is at least 85, down exactly when at most 60, stable exactly in between |
| Utils.TrendMonotone | lib/utils.ts:62-66 | a higher score never gives a worse trend |
| Utils.FleetUtilization | lib/utils.ts:68-72 | 0 for no resources; otherwise the mean, whose product with the count is the sum of availabilities |
| Utils.SumAvailabilityBounds | lib/utils.ts:71 | bounds on every availability bound the sum by the count times each bound |
| Utils.FleetUtilizationBetween | lib/utils.ts:68-72 | the mean lies between any lower and upper bound of the availabilities, hence between the minimum and the maximum |
| Utils.FleetUtilizationExample | lib/utils.ts:68-72 | availabilities 20 and 95 average to 57.5 |
| Analytics.OnTimeCases | app/api/analytics/route.ts:76-81 | a task with no end, an unparsable end or start, or a zero estimate is never on time; with a parsable end, no start and a positive estimate it is, and with a negative estimate it is not; otherwise it is on time when the duration is within the estimate times 4,320,000 ms |
| Analytics.OnTimeExamples | app/api/analytics/route.ts:79-80 | five hours against a four-hour estimate is late, and against five hours it is on time |
| Analytics.CompletedTasks | app/api/analytics/route.ts:75 | exactly the completed tasks: each one is listed, none is listed more often than stored, the length is the independent count of completed tasks, and the list is empty exactly when none is completed |
| Analytics.OnTimeTasks | app/api/analytics/route.ts:76-81 | exactly the completed on-time tasks: each one is listed, none more often than stored, and the length is the count of on-time tasks among the completed ones, so never more than those |
| Analytics.TeamEfficiency | app/api/analytics/route.ts:72-84 | efficiency lies in [0, 100]; it is 0 with no tasks and when none is completed; otherwise it is 100 times the on-time tasks over the completed ones |
| Analytics.EfficiencyFull | app/api/analytics/route.ts:72-84 | efficiency is 100 exactly when some task is completed and all completed tasks were on time |
| Analytics.EfficiencyZero | app/api/analytics/route.ts:72-84 | efficiency is 0 exactly when no completed task was on time, including when none is completed |
| Analytics.OverdueCharacterised | app/api/analytics/route.ts:90-95 | with unique project ids, a task is overdue exactly when it is not completed and its project's parsable due date is before now |
| Analytics.MissingProjectNeverOverdue | app/api/analytics/route.ts:92-93 | a task whose project is not stored is never overdue |
| Analytics.OverdueTasks | app/api/analytics/route.ts:90-95 | exactly the overdue tasks: each one is listed, none more often than stored, the length is the independent count of overdue tasks, and the list is non-empty exactly when some task is overdue |
| Analytics.LowUtilization | app/api/analytics/route.ts:108 | exactly the resources below 30: each one is listed, none more often than stored, the length is the independent count, and the list is non-empty exactly when some resource is below 30 |
| Analytics.HighUtilization | app/api/analytics/route.ts:119 | exactly the resources above 90: each one is listed, none more often than stored, the length is the independent count, and the list is non-empty exactly when some resource is above 90 |
| Analytics.AlertMessagesCarryCounts | app/api/analytics/route.ts:97-128 | each alert message starts with its count, which reads back as that count |
| Analytics.AlertsFor | app/api/analytics/route.ts:97-128 | at most three alerts, in the fixed order overdue, low, high, with no id repeated, each present exactly when its count is non-zero |
| Analytics.GenerateAlerts | app/api/analytics/route.ts:86-131 | at most three alerts in fixed order; overdue fires exactly when some task is overdue, low exactly when some availability is below 30, high exactly when some is above 90; each message carries its number of records |
| Analytics.UtilizationAlertsIndependent | app/api/analytics/route.ts:107-128 | no utilization alert fires when all values lie in [30, 90], and one value below 30 with one above 90 fires both |
| Analytics.ActiveProjects | app/api/analytics/route.ts:36 | the number of active projects is the independent count of projects with status `active`, at most the number of projects, and 0 exactly when none is active |
| Analytics.Dashboard | app/api/analytics/route.ts:28-55 | total is the number of tasks; completed is the histogram's completed count and at most the total; active projects is the independent count of projects with status `active`; efficiency is in [0, 100]; the activity feed is the newest min(10, n) entries |
| Analytics.HandleAnalytics | app/api/analytics/route.ts:10-21 | a missing or unknown `type` gives 400 "Invalid type parameter", and each of the four known types answers with its report |
| Frames.ActionPatch | app/api/frames/route.ts:48-76 | exactly the three actions have an update, and it never changes the task id: complete sets completed and the end time to now, start sets `in_progress` and the start time to now, pending sets pending and clears both times |
| Frames.ActionMessagesDistinct | app/api/frames/route.ts:48-76 | the three confirmation messages differ, and each quotes the description whole, at a fixed position after its emoji and lead words |
| Frames.HandleFrameAction | app/api/frames/route.ts:11-89 | a successful action leaves users, projects and resources alone, keeps the number of tasks, and appends exactly one activity after the existing ones; only the three known actions succeed |
| Frames.FrameChecksInOrder | app/api/frames/route.ts:21-80 | the first failing check decides: missing field 400, unknown user 404, unknown task 404, another user's task 403, unknown action 400; a request passing every check succeeds, and within one snapshot of the store the 500 update failure is unreachable |
| Frames.FrameActionEffect | app/api/frames/route.ts:45-89 | on success the task under the id becomes its merge with the action's update, other ids are unaffected, and the newest activity is a `task_update` naming the user, the task, its project and the message, with no timestamp |
| Frames.FrameTransitions | app/api/frames/route.ts:49-72 | completing sets status and end time, starting sets `in_progress` and start time, pending clears both times, and nothing else in the task changes |
| Frames.FrameButtonLabel | app/api/frames/route.ts:151 | the button reads "Mark Pending" exactly for a completed task and "Mark Complete" otherwise |
| Frames.FrameMetadata | app/api/frames/route.ts:126-164 | an empty task id gives 400, an unknown one 404, and a stored task always gives its button label |
| Frames.FrameButtonAfterAction | app/api/frames/route.ts:49-151 | after completing, the frame offers to mark pending; after any other action, to mark complete |
| TaskCard.NextStatus | components/TaskCard.tsx:35-46 | a successor exists exactly for pending, in_progress and completed, and it is another state of that cycle |
| TaskCard.CycleReturns | components/TaskCard.tsx:35-46 | three steps from any state of the cycle return to it |
| TaskCard.CycleFromPending | components/TaskCard.tsx:37-42 | the cycle runs pending, in_progress, completed, pending |
| TaskCard.NoNextOutsideCycle | components/TaskCard.tsx:43-44 | `blocked` and the declared `in-progress` have no successor |
| TaskCard.RequestedStatus | components/TaskCard.tsx:99-137 | the button always requests a state of the cycle: the successor when there is one, pending otherwise |
| TaskCard.HyphenatedStatusResets | components/TaskCard.tsx:99-137 | a task stored as `in-progress` is sent back to pending, while `in_progress` goes on to completed |
| TaskCard.ButtonText | components/TaskCard.tsx:48-59 | "Start Task" exactly for pending, "Complete" for in_progress, "Reopen" for completed, "Update" for every other status |
| TaskCard.ButtonIcon | components/TaskCard.tsx:61-72 | play exactly for pending, check for in_progress, pause for completed, clock otherwise |
| TaskCard.UpdateButtonResets | components/TaskCard.tsx:48-99 | the button reads "Update" exactly when the status has no successor, and then it requests pending |
| Auth.AuthenticateUser | lib/auth.ts:18-40 | authenticated exactly when the id is non-empty and some user carries it, and then as the first stored user with that farcasterId, the one the farcasterId lookup finds |
| Auth.CreateUserAccount | lib/auth.ts:45-71 | an existing farcasterId returns that user and writes nothing; a new one appends exactly one user under the fresh id, with the default role "Team Member" and no skills |
| Auth.RegisterThenAuthenticate | lib/auth.ts:18-71 | after registering, signing in with the same non-empty id finds the registered account, and the users grew by at most one |
| Auth.RegisterIdempotent | lib/auth.ts:52-55 | registering the same farcasterId twice creates one account |
| Auth.CurrentUser | lib/auth.ts:76-83 | a missing fid and the falsy fid 0 are unauthenticated; any other fid (a safe integer) is authenticated exactly when some user carries its decimal form, and the user is then the first one carrying it |
| Auth.RegisterThenCurrentUser | lib/auth.ts:76-83 | once an account exists for a non-zero fid's decimal form, that fid's client is signed in as exactly that account |
| Auth.RequireAuth | lib/auth.ts:88-92 | fails with "Authentication required" exactly for the unauthenticated user, and otherwise passes the user through |
| Auth.HasRole | lib/auth.ts:97-101 | an admin in any ASCII letter case, or a role equal to the required one ignoring ASCII case, has the role; nobody else does |
| Auth.HasRoleIgnoresCase | lib/auth.ts:97-101 | the ASCII letter case of neither the required role nor the user's role matters, "ADMIN" and "Admin" pass every check, and a user always has their own role |
| Auth.DefaultRoleIsNotAdmin | lib/auth.ts:61-101 | a default account has the role "team member" but not the admin role |
| TasksRoute.TasksGet | app/api/tasks/route.ts:11-22 | a project filter wins, then a user filter, and with neither all tasks are listed |
| TasksRoute.TasksGetPrecedence | app/api/tasks/route.ts:11-19 | with a project filter the user filter is ignored, and every listed task matches the filter that won |
| TasksRoute.TasksPost | app/api/tasks/route.ts:29-54 | 400 exactly when project, assignee or description is missing or the effort is not a number; otherwise one task is appended with the given fields, status pending and priority medium by default |
| TasksRoute.AnyEffortAccepted | app/api/tasks/route.ts:35 | an estimate of 0 or below is accepted, since only the type is checked |
| TasksRoute.PostThenListByProject | app/api/tasks/route.ts:11-52 | a created task is listed last under its project and is found by its new id |
| UsersRoute.UsersGet | app/api/users/route.ts:5-24 | with a farcasterId, 404 exactly when no user carries it, otherwise 200 with the first user carrying it; without one, all users |
| UsersRoute.UsersPost | app/api/users/route.ts:26-56 | 400 exactly when farcasterId, name or role is missing; 409 exactly when they are present and the farcasterId is in use; success exactly otherwise, appending one user with skills defaulting to none |
| UsersRoute.RegisterThenLookUp | app/api/users/route.ts:10-54 | a registered user is then found by farcasterId, and a second registration with it is rejected with 409 |
| ProjectsRoute.ProjectsGet | app/api/projects/route.ts:5-21 | with a userId, the user's projects as the project filter returns them, in stored order and each as often as stored; without one, all projects |
| ProjectsRoute.ProjectsPost | app/api/projects/route.ts:23-44 | 400 exactly when the name or due date is missing or the assigned users are not an array; otherwise one project is appended, active and at progress 0 unless given |
| ProjectsRoute.PostThenListForUser | app/api/projects/route.ts:10-42 | a created project is listed last for each of its assigned users and for nobody else |
| ResourcesRoute.ResourcesPost | app/api/resources/route.ts:15-36 | 400 exactly when the name or type is missing or availability is not a number; otherwise one resource is appended, with no assignments unless given and skills as given |
| ResourcesRoute.AvailabilityStoredVerbatim | app/api/resources/route.ts:20-33 | any number, negative or above 100 included, is accepted and stored as sent |

## Left out

- File persistence, directory initialisation and JSON parse errors in lib/database.ts: the store is an in-memory snapshot.
- Id generation from `Date.now()` and `Math.random()`: each create takes a fresh id as a parameter.
- The wall clock and ISO date strings: `now` is a parameter in milliseconds, and a stored date is an `Instant`.
- The alert `timestamp`, the frame response's URLs and buttons, and the frame image route: they only format output.
- HTTP plumbing and the 500 answers of the `catch` blocks: they only fire on exceptions from the file store or the body parser.
- The frame signature check: it always accepts, so it has no branch.
- A JSON field of the wrong type: bodies are typed records. A non-number effort or availability is `None`, and a non-array `assignedUsers` is `None`. Other wrong-typed fields are not modelled.
- NaN as a JSON number: it cannot be sent in JSON, so only finite numbers are modelled.
- `Database.TasksByStatus`: the model keys the histogram by status in order of first occurrence. A JavaScript object lists integer-like keys (a status such as `"3"`) first, in ascending order, so for such statuses the JSON key order differs. The model also does not cover statuses such as `__proto__` that collide with `Object.prototype` keys.
- `Frames.FrameChecksInOrder`: states that the 500 branch is unreachable within one snapshot. The source re-reads the task file inside `updateTask`, so a concurrent writer could still reach it. Concurrency is not modelled.
- `Auth.CurrentUser`: takes every fid to be a safe integer below 2^53, where `fid.toString()` prints its exact decimal digits. Above 2^53 JavaScript prints the shortest round-tripping digits (2^60 prints as "1152921504606847000"), and from 1e21 on exponent form ("1e+21"); the model's `Decimal` key differs there.
- `Text.Lower`: lower-cases ASCII letters only. JavaScript's `toLowerCase` also maps non-ASCII capitals.
- Floating-point rounding: ratios and means are exact reals.
- React rendering, the formatting helpers of lib/utils.ts, and lib/mockData.ts fixtures.
