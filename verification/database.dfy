/** The record store of lib/database.ts as pure operations on the in-memory
    collections. Each write returns the new collection and the record written;
    a fresh id is a parameter instead of `Date.now()` plus `Math.random()`. */
module Database {
  import opened Wrappers
  import opened Entities
  import opened Collections
  import opened Ratios

  // ---------------------------------------------------------------------
  // Lookups (`find(...) || null`)

  function GetUserById(users: seq<User>, userId: string): (r: Option<User>)
    ensures r.None? <==> forall i :: 0 <= i < |users| ==> users[i].userId != userId
    ensures r.Some? ==> exists i :: (0 <= i < |users| && users[i] == r.value
      && r.value.userId == userId && forall j :: 0 <= j < i ==> users[j].userId != userId)
  {
    FindFirst(users, (u: User) => u.userId == userId)
  }

  /** Users without a farcasterId never match. */
  function GetUserByFarcasterId(users: seq<User>, farcasterId: string): (r: Option<User>)
    ensures r.None? <==> forall i :: 0 <= i < |users| ==> users[i].farcasterId != Some(farcasterId)
    ensures r.Some? ==> exists i :: (0 <= i < |users| && users[i] == r.value
      && r.value.farcasterId == Some(farcasterId)
      && forall j :: 0 <= j < i ==> users[j].farcasterId != Some(farcasterId))
  {
    FindFirst(users, (u: User) => u.farcasterId == Some(farcasterId))
  }

  function GetProjectById(projects: seq<Project>, projectId: string): (r: Option<Project>)
    ensures r.None? <==> forall i :: 0 <= i < |projects| ==> projects[i].projectId != projectId
    ensures r.Some? ==> exists i :: (0 <= i < |projects| && projects[i] == r.value
      && r.value.projectId == projectId && forall j :: 0 <= j < i ==> projects[j].projectId != projectId)
  {
    FindFirst(projects, (p: Project) => p.projectId == projectId)
  }

  function GetTaskById(tasks: seq<Task>, taskId: string): (r: Option<Task>)
    ensures r.None? <==> forall i :: 0 <= i < |tasks| ==> tasks[i].taskId != taskId
    ensures r.Some? ==> exists i :: (0 <= i < |tasks| && tasks[i] == r.value
      && r.value.taskId == taskId && forall j :: 0 <= j < i ==> tasks[j].taskId != taskId)
  {
    FindFirst(tasks, (t: Task) => t.taskId == taskId)
  }

  function GetResourceById(resources: seq<Resource>, resourceId: string): (r: Option<Resource>)
    ensures r.None? <==> forall i :: 0 <= i < |resources| ==> resources[i].resourceId != resourceId
    ensures r.Some? ==> exists i :: (0 <= i < |resources| && resources[i] == r.value
      && r.value.resourceId == resourceId
      && forall j :: 0 <= j < i ==> resources[j].resourceId != resourceId)
  {
    FindFirst(resources, (r: Resource) => r.resourceId == resourceId)
  }

  // ---------------------------------------------------------------------
  // Relation filters (`filter`)

  function GetProjectsByUser(projects: seq<Project>, userId: string): (r: seq<Project>)
    ensures forall i :: 0 <= i < |r| ==> userId in r[i].assignedUsers
    ensures forall i :: 0 <= i < |projects| && userId in projects[i].assignedUsers ==> projects[i] in r
    ensures multiset(r) <= multiset(projects)
  {
    Filter(projects, (p: Project) => userId in p.assignedUsers)
  }

  function GetTasksByProject(tasks: seq<Task>, projectId: string): (r: seq<Task>)
    ensures forall i :: 0 <= i < |r| ==> r[i].projectId == projectId
    ensures forall i :: 0 <= i < |tasks| && tasks[i].projectId == projectId ==> tasks[i] in r
    ensures multiset(r) <= multiset(tasks)
  {
    Filter(tasks, (t: Task) => t.projectId == projectId)
  }

  function GetTasksByUser(tasks: seq<Task>, userId: string): (r: seq<Task>)
    ensures forall i :: 0 <= i < |r| ==> r[i].assignedUserId == userId
    ensures forall i :: 0 <= i < |tasks| && tasks[i].assignedUserId == userId ==> tasks[i] in r
    ensures multiset(r) <= multiset(tasks)
  {
    Filter(tasks, (t: Task) => t.assignedUserId == userId)
  }

  /** The task filter keeps the input order: tasks pushed later come later. */
  lemma TasksByProjectAppend(a: seq<Task>, b: seq<Task>, projectId: string)
    ensures GetTasksByProject(a + b, projectId) == GetTasksByProject(a, projectId) + GetTasksByProject(b, projectId)
  {
    FilterAppend(a, b, (t: Task) => t.projectId == projectId);
  }

  /** The task filter keeps the input order: tasks pushed later come later. */
  lemma TasksByUserAppend(a: seq<Task>, b: seq<Task>, userId: string)
    ensures GetTasksByUser(a + b, userId) == GetTasksByUser(a, userId) + GetTasksByUser(b, userId)
  {
    FilterAppend(a, b, (t: Task) => t.assignedUserId == userId);
  }

  /** The project filter keeps the input order. */
  lemma ProjectsByUserAppend(a: seq<Project>, b: seq<Project>, userId: string)
    ensures GetProjectsByUser(a + b, userId) == GetProjectsByUser(a, userId) + GetProjectsByUser(b, userId)
  {
    FilterAppend(a, b, (p: Project) => userId in p.assignedUsers);
  }

  // ---------------------------------------------------------------------
  // Merge-update (`{ ...record, ...updates }`): a patch field that is `None`
  // was not supplied; `Some(None)` on an optional field is an explicit
  // `undefined`, which the spread copies and so clears the field.

  datatype UserPatch = UserPatch(
    userId: Option<string>,
    farcasterId: Option<Option<string>>,
    name: Option<string>,
    role: Option<string>,
    skills: Option<seq<string>>,
    avatar: Option<Option<string>>)
  {
    function Apply(u: User): (r: User)
      ensures userId.None? ==> r.userId == u.userId
      ensures userId.Some? ==> r.userId == userId.value
      ensures farcasterId.None? ==> r.farcasterId == u.farcasterId
      ensures farcasterId.Some? ==> r.farcasterId == farcasterId.value
      ensures name.None? ==> r.name == u.name
      ensures name.Some? ==> r.name == name.value
      ensures role.None? ==> r.role == u.role
      ensures role.Some? ==> r.role == role.value
      ensures skills.None? ==> r.skills == u.skills
      ensures skills.Some? ==> r.skills == skills.value
      ensures avatar.None? ==> r.avatar == u.avatar
      ensures avatar.Some? ==> r.avatar == avatar.value
    {
      User(userId.GetOr(u.userId), farcasterId.GetOr(u.farcasterId), name.GetOr(u.name),
           role.GetOr(u.role), skills.GetOr(u.skills), avatar.GetOr(u.avatar))
    }
  }

  datatype ProjectPatch = ProjectPatch(
    projectId: Option<string>,
    projectName: Option<string>,
    dueDate: Option<Option<Instant>>,
    status: Option<string>,
    progress: Option<real>,
    assignedUsers: Option<seq<string>>)
  {
    function Apply(p: Project): (r: Project)
      ensures projectId.None? ==> r.projectId == p.projectId
      ensures projectId.Some? ==> r.projectId == projectId.value
      ensures projectName.None? ==> r.projectName == p.projectName
      ensures projectName.Some? ==> r.projectName == projectName.value
      ensures dueDate.None? ==> r.dueDate == p.dueDate
      ensures dueDate.Some? ==> r.dueDate == dueDate.value
      ensures status.None? ==> r.status == p.status
      ensures status.Some? ==> r.status == status.value
      ensures progress.None? ==> r.progress == p.progress
      ensures progress.Some? ==> r.progress == progress.value
      ensures assignedUsers.None? ==> r.assignedUsers == p.assignedUsers
      ensures assignedUsers.Some? ==> r.assignedUsers == assignedUsers.value
    {
      Project(projectId.GetOr(p.projectId), projectName.GetOr(p.projectName),
              dueDate.GetOr(p.dueDate), status.GetOr(p.status), progress.GetOr(p.progress),
              assignedUsers.GetOr(p.assignedUsers))
    }
  }

  datatype TaskPatch = TaskPatch(
    taskId: Option<string>,
    projectId: Option<string>,
    assignedUserId: Option<string>,
    description: Option<string>,
    status: Option<string>,
    startTime: Option<Option<Instant>>,
    endTime: Option<Option<Instant>>,
    estimatedEffort: Option<real>,
    actualEffort: Option<Option<real>>,
    priority: Option<string>)
  {
    function Apply(t: Task): (r: Task)
      ensures taskId.None? ==> r.taskId == t.taskId
      ensures taskId.Some? ==> r.taskId == taskId.value
      ensures projectId.None? ==> r.projectId == t.projectId
      ensures projectId.Some? ==> r.projectId == projectId.value
      ensures assignedUserId.None? ==> r.assignedUserId == t.assignedUserId
      ensures assignedUserId.Some? ==> r.assignedUserId == assignedUserId.value
      ensures description.None? ==> r.description == t.description
      ensures description.Some? ==> r.description == description.value
      ensures status.None? ==> r.status == t.status
      ensures status.Some? ==> r.status == status.value
      ensures startTime.None? ==> r.startTime == t.startTime
      ensures startTime.Some? ==> r.startTime == startTime.value
      ensures endTime.None? ==> r.endTime == t.endTime
      ensures endTime.Some? ==> r.endTime == endTime.value
      ensures estimatedEffort.None? ==> r.estimatedEffort == t.estimatedEffort
      ensures estimatedEffort.Some? ==> r.estimatedEffort == estimatedEffort.value
      ensures actualEffort.None? ==> r.actualEffort == t.actualEffort
      ensures actualEffort.Some? ==> r.actualEffort == actualEffort.value
      ensures priority.None? ==> r.priority == t.priority
      ensures priority.Some? ==> r.priority == priority.value
    {
      Task(taskId.GetOr(t.taskId), projectId.GetOr(t.projectId),
           assignedUserId.GetOr(t.assignedUserId), description.GetOr(t.description),
           status.GetOr(t.status), startTime.GetOr(t.startTime), endTime.GetOr(t.endTime),
           estimatedEffort.GetOr(t.estimatedEffort), actualEffort.GetOr(t.actualEffort),
           priority.GetOr(t.priority))
    }
  }

  /** The patch that supplies no field. */
  const NoTaskChange := TaskPatch(None, None, None, None, None, None, None, None, None, None)

  datatype ResourcePatch = ResourcePatch(
    resourceId: Option<string>,
    resourceName: Option<string>,
    resourceType: Option<string>,
    availability: Option<real>,
    currentAssignments: Option<seq<string>>,
    skills: Option<Option<seq<string>>>)
  {
    function Apply(r0: Resource): (r: Resource)
      ensures resourceId.None? ==> r.resourceId == r0.resourceId
      ensures resourceId.Some? ==> r.resourceId == resourceId.value
      ensures resourceName.None? ==> r.resourceName == r0.resourceName
      ensures resourceName.Some? ==> r.resourceName == resourceName.value
      ensures resourceType.None? ==> r.resourceType == r0.resourceType
      ensures resourceType.Some? ==> r.resourceType == resourceType.value
      ensures availability.None? ==> r.availability == r0.availability
      ensures availability.Some? ==> r.availability == availability.value
      ensures currentAssignments.None? ==> r.currentAssignments == r0.currentAssignments
      ensures currentAssignments.Some? ==> r.currentAssignments == currentAssignments.value
      ensures skills.None? ==> r.skills == r0.skills
      ensures skills.Some? ==> r.skills == skills.value
    {
      Resource(resourceId.GetOr(r0.resourceId), resourceName.GetOr(r0.resourceName),
               resourceType.GetOr(r0.resourceType), availability.GetOr(r0.availability),
               currentAssignments.GetOr(r0.currentAssignments), skills.GetOr(r0.skills))
    }
  }

  /** Supplied task fields take the patch's value; merging the same patch a
      second time changes nothing; the empty patch changes nothing. */
  lemma TaskPatchMerges(p: TaskPatch, t: Task)
    ensures p.status.Some? ==> p.Apply(t).status == p.status.value
    ensures p.startTime.Some? ==> p.Apply(t).startTime == p.startTime.value
    ensures p.endTime.Some? ==> p.Apply(t).endTime == p.endTime.value
    ensures p.Apply(p.Apply(t)) == p.Apply(t)
    ensures NoTaskChange.Apply(t) == t
  {
  }

  function UpdateUser(users: seq<User>, userId: string, patch: UserPatch): (r: Option<Written<User>>)
    ensures r.None? <==> forall i :: 0 <= i < |users| ==> users[i].userId != userId
    ensures r.Some? ==> exists i :: (0 <= i < |users| && users[i].userId == userId
      && (forall j :: 0 <= j < i ==> users[j].userId != userId)
      && r.value.record == patch.Apply(users[i])
      && ReplacedAt(users, r.value.items, i, r.value.record))
  {
    UpdateFirst(users, (u: User) => u.userId == userId, (u: User) => patch.Apply(u))
  }

  function UpdateProject(projects: seq<Project>, projectId: string, patch: ProjectPatch): (r: Option<Written<Project>>)
    ensures r.None? <==> forall i :: 0 <= i < |projects| ==> projects[i].projectId != projectId
    ensures r.Some? ==> exists i :: (0 <= i < |projects| && projects[i].projectId == projectId
      && (forall j :: 0 <= j < i ==> projects[j].projectId != projectId)
      && r.value.record == patch.Apply(projects[i])
      && ReplacedAt(projects, r.value.items, i, r.value.record))
  {
    UpdateFirst(projects, (p: Project) => p.projectId == projectId, (p: Project) => patch.Apply(p))
  }

  function UpdateTask(tasks: seq<Task>, taskId: string, patch: TaskPatch): (r: Option<Written<Task>>)
    ensures r.None? <==> forall i :: 0 <= i < |tasks| ==> tasks[i].taskId != taskId
    ensures r.Some? ==> exists i :: (0 <= i < |tasks| && tasks[i].taskId == taskId
      && (forall j :: 0 <= j < i ==> tasks[j].taskId != taskId)
      && r.value.record == patch.Apply(tasks[i])
      && ReplacedAt(tasks, r.value.items, i, r.value.record))
  {
    UpdateFirst(tasks, (t: Task) => t.taskId == taskId, (t: Task) => patch.Apply(t))
  }

  function UpdateResource(resources: seq<Resource>, resourceId: string, patch: ResourcePatch): (r: Option<Written<Resource>>)
    ensures r.None? <==> forall i :: 0 <= i < |resources| ==> resources[i].resourceId != resourceId
    ensures r.Some? ==> exists i :: (0 <= i < |resources| && resources[i].resourceId == resourceId
      && (forall j :: 0 <= j < i ==> resources[j].resourceId != resourceId)
      && r.value.record == patch.Apply(resources[i])
      && ReplacedAt(resources, r.value.items, i, r.value.record))
  {
    UpdateFirst(resources, (x: Resource) => x.resourceId == resourceId, (x: Resource) => patch.Apply(x))
  }

  /** The updated task is the one `getTaskById` finds, merged with the patch. */
  lemma UpdateTaskFindsSameRecord(tasks: seq<Task>, taskId: string, patch: TaskPatch)
    ensures UpdateTask(tasks, taskId, patch).Some? <==> GetTaskById(tasks, taskId).Some?
    ensures GetTaskById(tasks, taskId).Some? ==>
      UpdateTask(tasks, taskId, patch).value.record == patch.Apply(GetTaskById(tasks, taskId).value)
  {
    var found := GetTaskById(tasks, taskId);
    if found.Some? {
      var i :| 0 <= i < |tasks| && tasks[i] == found.value
        && found.value.taskId == taskId && forall j :: 0 <= j < i ==> tasks[j].taskId != taskId;
      var w := UpdateTask(tasks, taskId, patch).value;
      var k :| 0 <= k < |tasks| && tasks[k].taskId == taskId
        && (forall j :: 0 <= j < k ==> tasks[j].taskId != taskId)
        && w.record == patch.Apply(tasks[k])
        && ReplacedAt(tasks, w.items, k, w.record);
      assert i == k by {
        assert !(i < k) && !(k < i);
      }
    }
  }

  /** After an update that keeps the id, `getTaskById` finds the merged record
      under that id and what it found before under every other id. */
  lemma UpdateTaskThenGet(tasks: seq<Task>, taskId: string, patch: TaskPatch, otherId: string)
    requires patch.taskId.None?
    ensures var r := UpdateTask(tasks, taskId, patch);
      r.Some? ==> GetTaskById(r.value.items, taskId) == Some(r.value.record)
    ensures var r := UpdateTask(tasks, taskId, patch);
      r.Some? && otherId != taskId ==> GetTaskById(r.value.items, otherId) == GetTaskById(tasks, otherId)
  {
    if UpdateTask(tasks, taskId, patch).None? { return; }
    var w := UpdateTask(tasks, taskId, patch).value;
    var i :| 0 <= i < |tasks| && tasks[i].taskId == taskId
      && (forall j :: 0 <= j < i ==> tasks[j].taskId != taskId)
      && w.record == patch.Apply(tasks[i])
      && ReplacedAt(tasks, w.items, i, w.record);
    var p := (t: Task) => t.taskId == taskId;
    assert FirstMatchAt(tasks, p, i);
    var k := FirstIndex(tasks, p).value;
    assert !(k < i) && !(i < k);
    FindReplaced(tasks, w.items, i, w.record, p);
    var q := (t: Task) => t.taskId == otherId;
    FindReplaced(tasks, w.items, i, w.record, q);
  }

  // ---------------------------------------------------------------------
  // Creation (`push({ ...record, id: fresh })`)

  function CreateUser(users: seq<User>, draft: User, freshId: string): (r: Written<User>)
    ensures |r.items| == |users| + 1 && r.items[..|users|] == users
    ensures r.items[|users|] == r.record
    ensures r.record.userId == freshId && r.record.(userId := draft.userId) == draft
  {
    var u := draft.(userId := freshId);
    Written(users + [u], u)
  }

  function CreateProject(projects: seq<Project>, draft: Project, freshId: string): (r: Written<Project>)
    ensures |r.items| == |projects| + 1 && r.items[..|projects|] == projects
    ensures r.items[|projects|] == r.record
    ensures r.record.projectId == freshId && r.record.(projectId := draft.projectId) == draft
  {
    var p := draft.(projectId := freshId);
    Written(projects + [p], p)
  }

  function CreateTask(tasks: seq<Task>, draft: Task, freshId: string): (r: Written<Task>)
    ensures |r.items| == |tasks| + 1 && r.items[..|tasks|] == tasks
    ensures r.items[|tasks|] == r.record
    ensures r.record.taskId == freshId && r.record.(taskId := draft.taskId) == draft
  {
    var t := draft.(taskId := freshId);
    Written(tasks + [t], t)
  }

  function CreateResource(resources: seq<Resource>, draft: Resource, freshId: string): (r: Written<Resource>)
    ensures |r.items| == |resources| + 1 && r.items[..|resources|] == resources
    ensures r.items[|resources|] == r.record
    ensures r.record.resourceId == freshId && r.record.(resourceId := draft.resourceId) == draft
  {
    var x := draft.(resourceId := freshId);
    Written(resources + [x], x)
  }

  function CreateActivity(activities: seq<Activity>, draft: Activity, freshId: string): (r: Written<Activity>)
    ensures |r.items| == |activities| + 1 && r.items[..|activities|] == activities
    ensures r.items[|activities|] == r.record
    ensures r.record.id == freshId && r.record.(id := draft.id) == draft
  {
    var a := draft.(id := freshId);
    Written(activities + [a], a)
  }

  /** A task created under an unused id is what `getTaskById` then finds, and
      every other id finds what it found before. */
  lemma CreateTaskThenGet(tasks: seq<Task>, draft: Task, freshId: string, otherId: string)
    requires forall i :: 0 <= i < |tasks| ==> tasks[i].taskId != freshId
    requires otherId != freshId
    ensures GetTaskById(CreateTask(tasks, draft, freshId).items, freshId) == Some(CreateTask(tasks, draft, freshId).record)
    ensures GetTaskById(CreateTask(tasks, draft, freshId).items, otherId) == GetTaskById(tasks, otherId)
  {
    var t := draft.(taskId := freshId);
    FindFirstAppend(tasks, t, (x: Task) => x.taskId == freshId);
    FindFirstAppend(tasks, t, (x: Task) => x.taskId == otherId);
  }

  /** A user created under an unused farcasterId is what the farcasterId lookup
      then finds. */
  lemma CreateUserThenGetByFarcasterId(users: seq<User>, draft: User, freshId: string, farcasterId: string)
    requires GetUserByFarcasterId(users, farcasterId).None?
    requires draft.farcasterId == Some(farcasterId)
    ensures GetUserByFarcasterId(CreateUser(users, draft, freshId).items, farcasterId)
      == Some(CreateUser(users, draft, freshId).record)
  {
    FindFirstAppend(users, draft.(userId := freshId), (u: User) => u.farcasterId == Some(farcasterId));
  }

  // ---------------------------------------------------------------------
  // Activities: `activities.slice(-limit).reverse()`

  /** Where `slice(-limit)` starts on a log of `n` entries: a positive limit
      counts back from the end; since `-0` is `0`, a zero limit keeps the whole
      log, and a negative limit, which no caller passes, drops `-limit`
      entries from the front. */
  function SliceStart(n: nat, limit: int): (s: nat)
    ensures s <= n
    ensures limit > 0 ==> n - s == if limit < n then limit else n
    ensures limit == 0 ==> s == 0
    ensures limit < 0 ==> s == if -limit < n then -limit else n
  {
    if limit > 0 then (if n - limit > 0 then n - limit else 0)
    else if -limit < n then -limit else n
  }

  function GetActivities(activities: seq<Activity>, limit: int): (r: seq<Activity>)
    ensures |r| == |activities| - SliceStart(|activities|, limit)
    ensures forall i :: 0 <= i < |r| ==> r[i] == activities[|activities| - 1 - i]
  {
    Reverse(activities[SliceStart(|activities|, limit)..])
  }

  /** For a positive limit the result is the newest min(limit, n) entries,
      newest first; a zero limit returns the whole log reversed. */
  lemma ActivitiesWindow(activities: seq<Activity>, limit: int)
    ensures limit >= 1 ==> |GetActivities(activities, limit)| == (if limit < |activities| then limit else |activities|)
    ensures limit >= 1 && |activities| > 0 ==> GetActivities(activities, limit)[0] == activities[|activities| - 1]
    ensures limit == 0 ==> GetActivities(activities, limit) == Reverse(activities)
    ensures limit >= |activities| ==> GetActivities(activities, limit) == Reverse(activities)
  {
  }

  // ---------------------------------------------------------------------
  // Analytics helpers

  /** One entry of the `getTasksByStatus` object. */
  datatype StatusCount = StatusCount(status: string, count: nat)

  /** Number of tasks with the given status. */
  function CountStatus(tasks: seq<Task>, status: string): nat {
    Count(tasks, (t: Task) => t.status == status)
  }

  /** The histogram has an entry for `s`. */
  predicate HasKey(h: seq<StatusCount>, s: string) {
    exists i :: 0 <= i < |h| && h[i].status == s
  }

  /** No status has two entries, as with the keys of an object. */
  ghost predicate DistinctKeys(h: seq<StatusCount>) {
    forall i, j :: 0 <= i < j < |h| ==> h[i].status != h[j].status
  }

  /** Sum of all counts. */
  function Total(h: seq<StatusCount>): nat
    decreases |h|
  {
    if |h| == 0 then 0 else h[0].count + Total(h[1..])
  }

  lemma {:induction false} TotalAppend(h: seq<StatusCount>, e: StatusCount)
    ensures Total(h + [e]) == Total(h) + e.count
    decreases |h|
  {
    if |h| > 0 {
      assert (h + [e])[1..] == h[1..] + [e];
      TotalAppend(h[1..], e);
    }
  }

  lemma {:induction false} TotalUpdate(h: seq<StatusCount>, k: nat, e: StatusCount)
    requires k < |h|
    ensures Total(h[k := e]) == Total(h) - h[k].count + e.count
    decreases |h|
  {
    if k > 0 {
      assert h[k := e][1..] == h[1..][k - 1 := e];
      TotalUpdate(h[1..], k - 1, e);
    } else {
      assert h[k := e][1..] == h[1..];
    }
  }

  /** `acc[s] = (acc[s] || 0) + 1`: increments the entry for `s`, or adds one
      with count 1 after all existing keys. */
  function Bump(h: seq<StatusCount>, s: string): (r: seq<StatusCount>)
    requires DistinctKeys(h)
    ensures DistinctKeys(r)
    ensures |r| == (if HasKey(h, s) then |h| else |h| + 1)
    ensures forall i :: 0 <= i < |h| ==>
      r[i].status == h[i].status && r[i].count == h[i].count + (if h[i].status == s then 1 else 0)
    ensures !HasKey(h, s) ==> r[|h|] == StatusCount(s, 1)
    ensures Total(r) == Total(h) + 1
  {
    match FirstIndex(h, (e: StatusCount) => e.status == s)
    case Some(k) =>
      TotalUpdate(h, k, StatusCount(s, h[k].count + 1));
      h[k := StatusCount(s, h[k].count + 1)]
    case None =>
      TotalAppend(h, StatusCount(s, 1));
      h + [StatusCount(s, 1)]
  }

  /** `getTasksByStatus`: a `reduce` over the tasks. Keys are kept in order
      of first occurrence, which is the object's key order for every status
      that is not an array index. Its contents are stated by
      `TasksByStatusCounts`. */
  function TasksByStatus(tasks: seq<Task>): (r: seq<StatusCount>)
    ensures DistinctKeys(r)
    decreases |tasks|
  {
    if |tasks| == 0 then []
    else Bump(TasksByStatus(tasks[..|tasks| - 1]), tasks[|tasks| - 1].status)
  }

  /** The histogram has an entry for a status exactly when some task carries
      it. */
  lemma {:induction false} TasksByStatusKeys(tasks: seq<Task>)
    ensures forall s :: HasKey(TasksByStatus(tasks), s) <==> exists i :: 0 <= i < |tasks| && tasks[i].status == s
    decreases |tasks|
  {
    if |tasks| > 0 {
      var init := tasks[..|tasks| - 1];
      var s := tasks[|tasks| - 1].status;
      var h := TasksByStatus(init);
      TasksByStatusKeys(init);
      var r := Bump(h, s);
      assert r == TasksByStatus(tasks);
      forall x
        ensures HasKey(r, x) <==> exists i :: 0 <= i < |tasks| && tasks[i].status == x
      {
        BumpKeys(h, s, x);
        if exists i :: 0 <= i < |tasks| && tasks[i].status == x {
          var i :| 0 <= i < |tasks| && tasks[i].status == x;
          if i < |init| {
            assert init[i].status == x;
          }
        }
        if exists i :: 0 <= i < |init| && init[i].status == x {
          var i :| 0 <= i < |init| && init[i].status == x;
          assert tasks[i].status == x;
        }
      }
    }
  }

  /** Bumping a status adds that status as a key and keeps every other. */
  lemma BumpKeys(h: seq<StatusCount>, s: string, x: string)
    requires DistinctKeys(h)
    ensures HasKey(Bump(h, s), x) <==> HasKey(h, x) || x == s
  {
    var r := Bump(h, s);
    if HasKey(r, x) {
      var j :| 0 <= j < |r| && r[j].status == x;
      if j < |h| {
        assert h[j].status == x;
      }
    }
    if HasKey(h, x) {
      var j :| 0 <= j < |h| && h[j].status == x;
      assert r[j].status == x;
    } else if x == s {
      assert r[|h|].status == x;
    }
  }

  /** Every entry of `h` counts the tasks carrying its status, and is at least
      1. */
  ghost predicate CountsAgree(h: seq<StatusCount>, tasks: seq<Task>) {
    forall i :: 0 <= i < |h| ==> h[i].count == CountStatus(tasks, h[i].status) && h[i].count >= 1
  }

  /** Each entry's count is the number of tasks with that status, hence at
      least 1. */
  lemma {:induction false} TasksByStatusCounts(tasks: seq<Task>)
    ensures CountsAgree(TasksByStatus(tasks), tasks)
    decreases |tasks|
  {
    if |tasks| > 0 {
      var init := tasks[..|tasks| - 1];
      var s := tasks[|tasks| - 1].status;
      var h := TasksByStatus(init);
      TasksByStatusCounts(init);
      assert CountsAgree(h, init);
      var r := Bump(h, s);
      assert r == TasksByStatus(tasks);
      forall i | 0 <= i < |r|
        ensures r[i].count == CountStatus(tasks, r[i].status) && r[i].count >= 1
      {
        var st := r[i].status;
        assert CountStatus(tasks, st) == CountStatus(init, st) + (if s == st then 1 else 0);
        if i < |h| {
          assert h[i].status == st && h[i].count == CountStatus(init, st);
        } else {
          assert !HasKey(h, s) && r[i] == StatusCount(s, 1);
          TasksByStatusKeys(init);
          assert forall k :: 0 <= k < |init| ==> init[k].status != s;
          CountStatusAbsent(init, s);
        }
      }
    }
  }

  /** The counts add up to the number of tasks. */
  lemma {:induction false} TasksByStatusTotal(tasks: seq<Task>)
    ensures Total(TasksByStatus(tasks)) == |tasks|
    decreases |tasks|
  {
    if |tasks| > 0 {
      TasksByStatusTotal(tasks[..|tasks| - 1]);
    }
  }

  /** A status that no task carries has count 0. */
  lemma {:induction false} CountStatusAbsent(tasks: seq<Task>, status: string)
    requires forall i :: 0 <= i < |tasks| ==> tasks[i].status != status
    ensures CountStatus(tasks, status) == 0
    decreases |tasks|
  {
    if |tasks| > 0 {
      CountStatusAbsent(tasks[..|tasks| - 1], status);
    }
  }

  /** A status has an entry exactly when its count is non-zero: absent
      statuses are omitted, not reported as 0. */
  lemma AbsentStatusOmitted(tasks: seq<Task>, status: string)
    ensures !HasKey(TasksByStatus(tasks), status) <==> CountStatus(tasks, status) == 0
  {
    TasksByStatusKeys(tasks);
    TasksByStatusCounts(tasks);
    var h := TasksByStatus(tasks);
    if !HasKey(h, status) {
      CountStatusAbsent(tasks, status);
    }
  }

  /** The histogram's `completed` count agrees with the dashboard's filter. */
  lemma {:induction false} CompletedCountAgrees(tasks: seq<Task>)
    ensures CountStatus(tasks, Completed) == |Filter(tasks, IsCompleted)|
    decreases |tasks|
  {
    if |tasks| > 0 {
      var init := tasks[..|tasks| - 1];
      var last := tasks[|tasks| - 1];
      assert tasks == init + [last];
      FilterAppend(init, [last], IsCompleted);
      CompletedCountAgrees(init);
    }
  }

  /** One entry of `getProjectProgress`. */
  datatype ProgressEntry = ProgressEntry(projectId: string, progress: real, name: string)

  /** The percentage of a project's tasks that are completed, 0 when it has
      none: progress times the number of its tasks is 100 times the number
      completed. */
  function ProgressOf(project: Project, tasks: seq<Task>): (r: ProgressEntry)
    ensures r.projectId == project.projectId && r.name == project.projectName
    ensures 0.0 <= r.progress <= 100.0
    ensures |GetTasksByProject(tasks, project.projectId)| == 0 ==> r.progress == 0.0
    ensures |GetTasksByProject(tasks, project.projectId)| > 0 ==>
      IsShareOf(r.progress, |Filter(GetTasksByProject(tasks, project.projectId), IsCompleted)|,
                |GetTasksByProject(tasks, project.projectId)|)
  {
    var own := GetTasksByProject(tasks, project.projectId);
    if |own| == 0 then ProgressEntry(project.projectId, 0.0, project.projectName)
    else
      var done := Filter(own, IsCompleted);
      PercentRange(|done|, |own|);
      ProgressEntry(project.projectId, Percent(|done|, |own|), project.projectName)
  }

  /** `getProjectProgress`: one entry per project, in project order. */
  function ProjectProgress(projects: seq<Project>, tasks: seq<Task>): (r: seq<ProgressEntry>)
    ensures |r| == |projects|
    ensures forall i :: 0 <= i < |projects| ==>
      r[i].projectId == projects[i].projectId && r[i].name == projects[i].projectName
      && 0.0 <= r[i].progress <= 100.0
    ensures forall i :: 0 <= i < |projects| ==> r[i] == ProgressOf(projects[i], tasks)
  {
    seq(|projects|, i requires 0 <= i < |projects| => ProgressOf(projects[i], tasks))
  }

  /** Progress is 100 exactly when the project has tasks and all are
      completed, and 0 exactly when none of its tasks is completed. */
  lemma ProgressExtremes(project: Project, tasks: seq<Task>)
    ensures var own := GetTasksByProject(tasks, project.projectId);
      ProgressOf(project, tasks).progress == 100.0 <==>
        |own| > 0 && forall i :: 0 <= i < |own| ==> own[i].status == Completed
    ensures var own := GetTasksByProject(tasks, project.projectId);
      ProgressOf(project, tasks).progress == 0.0 <==>
        forall i :: 0 <= i < |own| ==> own[i].status != Completed
  {
    var own := GetTasksByProject(tasks, project.projectId);
    FilterKeepsLength(own, IsCompleted);
    FilterDropsAll(own, IsCompleted);
    var done := Filter(own, IsCompleted);
    if |own| > 0 {
      PercentBounds(|done|, |own|);
      assert ProgressOf(project, tasks).progress == Percent(|done|, |own|);
    }
  }

  /** One entry of `getResourceUtilization`. */
  datatype UtilizationEntry = UtilizationEntry(resourceId: string, utilization: real, name: string)

  /** `getResourceUtilization`: the stored availability, relabelled, one entry
      per resource in order. */
  function ResourceUtilization(resources: seq<Resource>): (r: seq<UtilizationEntry>)
    ensures |r| == |resources|
    ensures forall i :: 0 <= i < |resources| ==>
      r[i] == UtilizationEntry(resources[i].resourceId, resources[i].availability, resources[i].resourceName)
  {
    seq(|resources|, i requires 0 <= i < |resources| =>
      UtilizationEntry(resources[i].resourceId, resources[i].availability, resources[i].resourceName))
  }
}
