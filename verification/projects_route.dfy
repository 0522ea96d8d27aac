/** app/api/projects/route.ts: listing projects, optionally those of one user,
    and creating a project from a JSON body. A query parameter or body string
    that is absent or empty is "". */
module ProjectsRoute {
  import opened Wrappers
  import opened Entities
  import opened Collections
  import opened Http
  import opened Database

  /** `GET /api/projects`: with a userId, exactly the projects that list it
      among their assigned users, in stored order; without one, every
      project. */
  function ProjectsGet(projects: seq<Project>, userId: string): (r: seq<Project>)
    ensures userId == "" ==> r == projects
    ensures userId != "" ==> r == GetProjectsByUser(projects, userId)
    ensures userId != "" ==> forall i :: 0 <= i < |r| ==> r[i] in projects && userId in r[i].assignedUsers
    ensures userId != "" ==>
      forall i :: 0 <= i < |projects| && userId in projects[i].assignedUsers ==> projects[i] in r
  {
    if userId != "" then GetProjectsByUser(projects, userId) else projects
  }

  /** The JSON body of `POST /api/projects`. `assignedUsers` is `None` when
      absent or not an array; `progress` is `None` when absent or falsy. */
  datatype ProjectBody = ProjectBody(
    projectName: string,
    dueDate: Option<Instant>,
    assignedUsers: Option<seq<string>>,
    status: string,
    progress: Option<real>)

  const MissingProjectFields := ApiError(BadRequest, "Missing required fields: projectName, dueDate, assignedUsers (array)")

  predicate ValidProjectBody(body: ProjectBody) {
    body.projectName != "" && body.dueDate.Some? && body.assignedUsers.Some?
  }

  /** `POST /api/projects`: rejects a body without a name, a due date or an
      array of assigned users (an empty array is accepted); otherwise appends
      the project under `freshId`, `active` and at progress 0 unless given. */
  function ProjectsPost(projects: seq<Project>, body: ProjectBody, freshId: string): (r: Result<Written<Project>, ApiError>)
    ensures r.Failure? <==> !ValidProjectBody(body)
    ensures r.Failure? ==> r.error == MissingProjectFields
    ensures r.Success? ==>
      var p := r.value.record;
      && r.value.items == projects + [p]
      && p.projectId == freshId
      && p.projectName == body.projectName
      && p.dueDate == body.dueDate
      && p.assignedUsers == body.assignedUsers.value
      && (body.status != "" ==> p.status == body.status)
      && (body.status == "" ==> p.status == Active)
      && (body.progress.Some? ==> p.progress == body.progress.value)
      && (body.progress.None? ==> p.progress == 0.0)
  {
    if !ValidProjectBody(body) then Failure(MissingProjectFields)
    else
      var draft := Project("", body.projectName, body.dueDate,
                           if body.status != "" then body.status else Active,
                           body.progress.GetOr(0.0), body.assignedUsers.value);
      var w := CreateProject(projects, draft, freshId);
      assert w.items == projects + [w.record];
      Success(w)
  }

  /** A created project is listed, last, for each of its assigned users, and
      for no other user. */
  lemma PostThenListForUser(projects: seq<Project>, body: ProjectBody, freshId: string, userId: string)
    requires ProjectsPost(projects, body, freshId).Success?
    requires userId != ""
    ensures var w := ProjectsPost(projects, body, freshId).value;
      ProjectsGet(w.items, userId)
        == ProjectsGet(projects, userId) + (if userId in body.assignedUsers.value then [w.record] else [])
  {
    var w := ProjectsPost(projects, body, freshId).value;
    ProjectsByUserAppend(projects, [w.record], userId);
  }
}
