/** The analytics endpoint of app/api/analytics/route.ts: team efficiency,
    alert generation, the dashboard aggregate and the `type` dispatch. The
    clock is the parameter `now`, in milliseconds. */
module Analytics {
  import opened Wrappers
  import opened Entities
  import opened Collections
  import opened Ratios
  import opened Http
  import opened Text
  import Database
  import Utils

  // ---------------------------------------------------------------------
  // Team efficiency

  const MsPerHour: real := 3600000.0
  /** A completed task may overrun its estimate by 20%. */
  const Tolerance: real := 1.2

  /** A completed task is on time when it has an end time and a non-zero
      estimate, and the time from its start (its end when it has no start) to
      its end is within the estimate plus 20%. An unparsable date makes the
      duration NaN, which is never within anything. */
  predicate IsOnTime(t: Task) {
    match t.endTime
    case None => false
    case Some(end) =>
      if t.estimatedEffort == 0.0 then false
      else
        var start := if t.startTime.Some? then t.startTime.value else end;
        match (end, start)
        case (At(e), At(s)) => (e - s) as real <= t.estimatedEffort * MsPerHour * Tolerance
        case _ => false
  }

  /** The on-time rule case by case. */
  lemma OnTimeCases(t: Task)
    ensures t.endTime.None? ==> !IsOnTime(t)
    ensures t.endTime.Some? && t.endTime.value.Unparsable? ==> !IsOnTime(t)
    ensures t.startTime.Some? && t.startTime.value.Unparsable? ==> !IsOnTime(t)
    ensures t.estimatedEffort == 0.0 ==> !IsOnTime(t)
    ensures t.endTime.Some? && t.endTime.value.At? && t.startTime.None? ==>
      (IsOnTime(t) <==> t.estimatedEffort > 0.0)
    ensures t.endTime.Some? && t.endTime.value.At? && t.startTime.Some? && t.startTime.value.At? ==>
      (IsOnTime(t) <==>
        t.estimatedEffort != 0.0
        && (t.endTime.value.ms - t.startTime.value.ms) as real <= t.estimatedEffort * 4320000.0)
  {
  }

  /** A task finished five hours after it started is late against a
      four-hour estimate (4.8 hours allowed) and on time against five hours
      (6 hours allowed). */
  lemma OnTimeExamples(t: Task, start: int)
    requires t.startTime == Some(At(start)) && t.endTime == Some(At(start + 5 * 3600000))
    ensures t.estimatedEffort == 4.0 ==> !IsOnTime(t)
    ensures t.estimatedEffort == 5.0 ==> IsOnTime(t)
  {
  }

  /** The tasks with status `completed`, in order: every one of them, and
      as many as there are. */
  function CompletedTasks(tasks: seq<Task>): (r: seq<Task>)
    ensures forall i :: 0 <= i < |r| ==> r[i].status == Completed
    ensures forall i :: 0 <= i < |tasks| && tasks[i].status == Completed ==> tasks[i] in r
    ensures multiset(r) <= multiset(tasks)
    ensures |r| == Count(tasks, IsCompleted)
    ensures |r| == 0 <==> forall i :: 0 <= i < |tasks| ==> tasks[i].status != Completed
  {
    FilterDropsAll(tasks, IsCompleted);
    FilterCount(tasks, IsCompleted);
    Filter(tasks, IsCompleted)
  }

  /** The completed tasks that were on time, in order: every one of them,
      and as many as there are. */
  function OnTimeTasks(tasks: seq<Task>): (r: seq<Task>)
    ensures |r| <= |CompletedTasks(tasks)|
    ensures forall i :: 0 <= i < |r| ==> r[i].status == Completed && IsOnTime(r[i])
    ensures forall i :: 0 <= i < |tasks| && tasks[i].status == Completed && IsOnTime(tasks[i]) ==> tasks[i] in r
    ensures multiset(r) <= multiset(tasks)
    ensures |r| == Count(CompletedTasks(tasks), IsOnTime)
  {
    var completed := CompletedTasks(tasks);
    FilterCount(completed, IsOnTime);
    var r := Filter(completed, IsOnTime);
    forall i | 0 <= i < |tasks| && tasks[i].status == Completed && IsOnTime(tasks[i])
      ensures tasks[i] in r
    {
      var k :| 0 <= k < |completed| && completed[k] == tasks[i];
    }
    r
  }

  /** `calculateTeamEfficiency`: the percentage of completed tasks that were
      on time; 0 with no tasks or no completed task. */
  function TeamEfficiency(tasks: seq<Task>): (r: real)
    ensures 0.0 <= r <= 100.0
    ensures |tasks| == 0 ==> r == 0.0
    ensures (forall i :: 0 <= i < |tasks| ==> tasks[i].status != Completed) ==> r == 0.0
    ensures |CompletedTasks(tasks)| > 0 ==> IsShareOf(r, |OnTimeTasks(tasks)|, |CompletedTasks(tasks)|)
  {
    if |tasks| == 0 then
      assert |CompletedTasks(tasks)| == 0;
      0.0
    else
      var completed := CompletedTasks(tasks);
      var onTime := OnTimeTasks(tasks);
      if |completed| > 0 then
        PercentRange(|onTime|, |completed|);
        Percent(|onTime|, |completed|)
      else 0.0
  }

  /** Efficiency is 100 exactly when there is a completed task and every
      completed task was on time. */
  lemma EfficiencyFull(tasks: seq<Task>)
    ensures TeamEfficiency(tasks) == 100.0 <==>
      |CompletedTasks(tasks)| > 0 && forall i :: 0 <= i < |CompletedTasks(tasks)| ==> IsOnTime(CompletedTasks(tasks)[i])
  {
    var completed := CompletedTasks(tasks);
    FilterKeepsLength(completed, IsOnTime);
    if |completed| > 0 {
      assert |tasks| > 0;
      PercentBounds(|OnTimeTasks(tasks)|, |completed|);
    }
  }

  /** Efficiency is 0 exactly when no completed task was on time, which
      includes having no completed task. */
  lemma EfficiencyZero(tasks: seq<Task>)
    ensures TeamEfficiency(tasks) == 0.0 <==>
      forall i :: 0 <= i < |CompletedTasks(tasks)| ==> !IsOnTime(CompletedTasks(tasks)[i])
  {
    var completed := CompletedTasks(tasks);
    FilterDropsAll(completed, IsOnTime);
    if |completed| > 0 {
      assert |tasks| > 0;
      PercentBounds(|OnTimeTasks(tasks)|, |completed|);
    }
  }

  // ---------------------------------------------------------------------
  // Alerts

  /** A non-completed task whose project, the first one with its id, has a
      parsable due date strictly before `now`. A task whose project is missing
      or has no due date is never overdue. */
  predicate IsOverdue(t: Task, projects: seq<Project>, now: int) {
    && t.status != Completed
    && match Database.GetProjectById(projects, t.projectId)
       case None => false
       case Some(p) =>
         match p.dueDate
         case Some(At(due)) => due < now
         case _ => false
  }

  /** With unique project ids, a task is overdue exactly when it is not
      completed and its project's due date has passed. */
  lemma OverdueCharacterised(t: Task, projects: seq<Project>, now: int)
    requires forall i, j :: 0 <= i < j < |projects| ==> projects[i].projectId != projects[j].projectId
    ensures IsOverdue(t, projects, now) <==>
      t.status != Completed &&
      exists j :: 0 <= j < |projects| && projects[j].projectId == t.projectId
        && projects[j].dueDate.Some? && projects[j].dueDate.value.At?
        && projects[j].dueDate.value.ms < now
  {
    var found := Database.GetProjectById(projects, t.projectId);
    if found.Some? {
      var k :| 0 <= k < |projects| && projects[k] == found.value && found.value.projectId == t.projectId;
      forall j | 0 <= j < |projects| && projects[j].projectId == t.projectId
        ensures j == k
      {
      }
    }
  }

  /** A task whose project is not in the snapshot is never counted. */
  lemma MissingProjectNeverOverdue(t: Task, projects: seq<Project>, now: int)
    requires forall j :: 0 <= j < |projects| ==> projects[j].projectId != t.projectId
    ensures !IsOverdue(t, projects, now)
  {
  }

  /** The overdue tasks, in order: every one of them, and as many as there
      are. */
  function OverdueTasks(tasks: seq<Task>, projects: seq<Project>, now: int): (r: seq<Task>)
    ensures forall i :: 0 <= i < |r| ==> IsOverdue(r[i], projects, now)
    ensures forall i :: 0 <= i < |tasks| && IsOverdue(tasks[i], projects, now) ==> tasks[i] in r
    ensures multiset(r) <= multiset(tasks)
    ensures |r| == Count(tasks, (t: Task) => IsOverdue(t, projects, now))
    ensures |r| > 0 <==> exists i :: 0 <= i < |tasks| && IsOverdue(tasks[i], projects, now)
  {
    var p := (t: Task) => IsOverdue(t, projects, now);
    FilterDropsAll(tasks, p);
    FilterCount(tasks, p);
    Filter(tasks, p)
  }

  predicate IsUnderused(r: Resource) {
    r.availability < 30.0
  }

  predicate IsOverused(r: Resource) {
    r.availability > 90.0
  }

  /** The resources under 30, in order: every one of them, and as many as
      there are. */
  function LowUtilization(resources: seq<Resource>): (r: seq<Resource>)
    ensures forall i :: 0 <= i < |r| ==> r[i].availability < 30.0
    ensures forall i :: 0 <= i < |resources| && resources[i].availability < 30.0 ==> resources[i] in r
    ensures multiset(r) <= multiset(resources)
    ensures |r| == Count(resources, IsUnderused)
    ensures |r| > 0 <==> exists i :: 0 <= i < |resources| && resources[i].availability < 30.0
  {
    FilterDropsAll(resources, IsUnderused);
    FilterCount(resources, IsUnderused);
    Filter(resources, IsUnderused)
  }

  /** The resources over 90, in order: every one of them, and as many as
      there are. */
  function HighUtilization(resources: seq<Resource>): (r: seq<Resource>)
    ensures forall i :: 0 <= i < |r| ==> r[i].availability > 90.0
    ensures forall i :: 0 <= i < |resources| && resources[i].availability > 90.0 ==> resources[i] in r
    ensures multiset(r) <= multiset(resources)
    ensures |r| == Count(resources, IsOverused)
    ensures |r| > 0 <==> exists i :: 0 <= i < |resources| && resources[i].availability > 90.0
  {
    FilterDropsAll(resources, IsOverused);
    FilterCount(resources, IsOverused);
    Filter(resources, IsOverused)
  }

  /** An alert; `kind` is the JSON field `type`. The ISO timestamp is left
      out. */
  datatype Alert = Alert(id: string, kind: string, severity: string, message: string)

  const OverdueId := "overdue_tasks"
  const LowId := "low_utilization"
  const HighId := "high_utilization"

  function OverdueAlert(count: nat): Alert {
    Alert(OverdueId, "shortage", "high", Decimal(count) + " tasks are overdue")
  }

  function LowAlert(count: nat): Alert {
    Alert(LowId, "underutilized", "medium", Decimal(count) + " resources have low utilization")
  }

  function HighAlert(count: nat): Alert {
    Alert(HighId, "overallocated", "medium", Decimal(count) + " resources are overutilized")
  }

  /** Each alert message starts with its count, printed in decimal, which
      reads back as that count. */
  lemma AlertMessagesCarryCounts(n: nat)
    ensures DecimalValue(OverdueAlert(n).message[..|Decimal(n)|]) == n
    ensures DecimalValue(LowAlert(n).message[..|Decimal(n)|]) == n
    ensures DecimalValue(HighAlert(n).message[..|Decimal(n)|]) == n
  {
    assert OverdueAlert(n).message[..|Decimal(n)|] == Decimal(n);
    assert LowAlert(n).message[..|Decimal(n)|] == Decimal(n);
    assert HighAlert(n).message[..|Decimal(n)|] == Decimal(n);
    DecimalRoundTrip(n);
  }

  /** Position of an alert id in the fixed emission order. */
  function AlertRank(id: string): int {
    if id == OverdueId then 0 else if id == LowId then 1 else 2
  }

  predicate HasAlert(alerts: seq<Alert>, id: string) {
    exists i :: 0 <= i < |alerts| && alerts[i].id == id
  }

  /** The alert list for the given numbers of overdue tasks, under-used and
      over-used resources: one alert per non-zero number, in rule order. */
  function AlertsFor(overdue: nat, low: nat, high: nat): (r: seq<Alert>)
    ensures |r| <= 3
    ensures forall i, j :: 0 <= i < j < |r| ==> AlertRank(r[i].id) < AlertRank(r[j].id)
    ensures forall i :: 0 <= i < |r| ==> r[i] in {OverdueAlert(overdue), LowAlert(low), HighAlert(high)}
    ensures HasAlert(r, OverdueId) <==> overdue > 0
    ensures HasAlert(r, LowId) <==> low > 0
    ensures HasAlert(r, HighId) <==> high > 0
  {
    var a := if overdue > 0 then [OverdueAlert(overdue)] else [];
    var b := if low > 0 then [LowAlert(low)] else [];
    var c := if high > 0 then [HighAlert(high)] else [];
    var r := a + b + c;
    assert |OverdueId| == 13 && |LowId| == 15 && |HighId| == 16;
    assert HasAlert(r, OverdueId) <==> |a| > 0 by {
      if |a| > 0 { assert r[0].id == OverdueId; }
    }
    assert HasAlert(r, LowId) <==> |b| > 0 by {
      if |b| > 0 { assert r[|a|].id == LowId; }
    }
    assert HasAlert(r, HighId) <==> |c| > 0 by {
      if |c| > 0 { assert r[|a| + |b|].id == HighId; }
    }
    r
  }

  /** `generateAlerts`: at most one alert per rule, in the order overdue, low,
      high, so no id repeats. Each rule fires exactly when its condition holds
      of some record, independently of the others, and its message carries
      the number of records that meet the condition. */
  function GenerateAlerts(tasks: seq<Task>, resources: seq<Resource>, projects: seq<Project>, now: int): (r: seq<Alert>)
    ensures |r| <= 3
    ensures forall i, j :: 0 <= i < j < |r| ==> AlertRank(r[i].id) < AlertRank(r[j].id)
    ensures HasAlert(r, OverdueId) <==> exists i :: 0 <= i < |tasks| && IsOverdue(tasks[i], projects, now)
    ensures HasAlert(r, LowId) <==> exists i :: 0 <= i < |resources| && resources[i].availability < 30.0
    ensures HasAlert(r, HighId) <==> exists i :: 0 <= i < |resources| && resources[i].availability > 90.0
    ensures forall i :: 0 <= i < |r| ==> r[i] in {
      OverdueAlert(|OverdueTasks(tasks, projects, now)|),
      LowAlert(|LowUtilization(resources)|),
      HighAlert(|HighUtilization(resources)|)}
  {
    AlertsFor(|OverdueTasks(tasks, projects, now)|, |LowUtilization(resources)|, |HighUtilization(resources)|)
  }

  /** When every availability lies in [30, 90] no utilization alert fires;
      one resource below 30 and one above 90 fire both. */
  lemma UtilizationAlertsIndependent(tasks: seq<Task>, resources: seq<Resource>, projects: seq<Project>, now: int)
    ensures (forall i :: 0 <= i < |resources| ==> 30.0 <= resources[i].availability <= 90.0) ==>
      !HasAlert(GenerateAlerts(tasks, resources, projects, now), LowId)
      && !HasAlert(GenerateAlerts(tasks, resources, projects, now), HighId)
    ensures |resources| == 2 && resources[0].availability == 20.0 && resources[1].availability == 95.0 ==>
      HasAlert(GenerateAlerts(tasks, resources, projects, now), LowId)
      && HasAlert(GenerateAlerts(tasks, resources, projects, now), HighId)
  {
  }

  // ---------------------------------------------------------------------
  // Dashboard and dispatch

  datatype DashboardData = DashboardData(
    totalTasks: nat,
    completedTasks: nat,
    activeProjects: nat,
    teamEfficiency: real,
    resourceUtilization: real,
    alerts: seq<Alert>,
    recentActivity: seq<Activity>)

  /** The dashboard shows the ten most recent activities. */
  const DashboardActivityLimit := 10

  /** The number of projects with status `active`. */
  function ActiveProjects(projects: seq<Project>): (n: nat)
    ensures n == Count(projects, IsActive) <= |projects|
    ensures n == 0 <==> forall i :: 0 <= i < |projects| ==> projects[i].status != Active
  {
    FilterCount(projects, IsActive);
    FilterDropsAll(projects, IsActive);
    |Filter(projects, IsActive)|
  }

  /** `getDashboardData` over one snapshot. */
  function Dashboard(store: Store, now: int): (d: DashboardData)
    ensures d.totalTasks == |store.tasks|
    ensures d.completedTasks == Database.CountStatus(store.tasks, Completed) <= d.totalTasks
    ensures d.activeProjects == Count(store.projects, IsActive) <= |store.projects|
    ensures 0.0 <= d.teamEfficiency <= 100.0
    ensures d.teamEfficiency == TeamEfficiency(store.tasks)
    ensures d.resourceUtilization == Utils.FleetUtilization(store.resources)
    ensures d.alerts == GenerateAlerts(store.tasks, store.resources, store.projects, now)
    ensures d.recentActivity == Database.GetActivities(store.activities, DashboardActivityLimit)
    ensures |d.recentActivity| == if |store.activities| < 10 then |store.activities| else 10
  {
    Database.CompletedCountAgrees(store.tasks);
    Database.ActivitiesWindow(store.activities, DashboardActivityLimit);
    DashboardData(
      |store.tasks|,
      |Filter(store.tasks, IsCompleted)|,
      ActiveProjects(store.projects),
      TeamEfficiency(store.tasks),
      Utils.FleetUtilization(store.resources),
      GenerateAlerts(store.tasks, store.resources, store.projects, now),
      Database.GetActivities(store.activities, DashboardActivityLimit))
  }

  datatype AnalyticsReply =
    | DashboardReply(data: DashboardData)
    | StatusReply(counts: seq<Database.StatusCount>)
    | ProgressReply(progress: seq<Database.ProgressEntry>)
    | UtilizationReply(utilization: seq<Database.UtilizationEntry>)

  /** The `type` query parameters the endpoint accepts. */
  const QueryTypes: set<string> := {"dashboard", "tasks-status", "projects-progress", "resources-utilization"}

  /** `GET /api/analytics?type=...`; `None` is an absent parameter. */
  function HandleAnalytics(query: Option<string>, store: Store, now: int): (r: Result<AnalyticsReply, ApiError>)
    ensures r.Failure? <==> query.None? || query.value !in QueryTypes
    ensures r.Failure? ==> r.error == ApiError(BadRequest, "Invalid type parameter")
    ensures query == Some("dashboard") ==> r == Success(DashboardReply(Dashboard(store, now)))
    ensures query == Some("tasks-status") ==> r == Success(StatusReply(Database.TasksByStatus(store.tasks)))
    ensures query == Some("projects-progress") ==>
      r == Success(ProgressReply(Database.ProjectProgress(store.projects, store.tasks)))
    ensures query == Some("resources-utilization") ==>
      r == Success(UtilizationReply(Database.ResourceUtilization(store.resources)))
  {
    match query
    case Some("dashboard") => Success(DashboardReply(Dashboard(store, now)))
    case Some("tasks-status") => Success(StatusReply(Database.TasksByStatus(store.tasks)))
    case Some("projects-progress") => Success(ProgressReply(Database.ProjectProgress(store.projects, store.tasks)))
    case Some("resources-utilization") => Success(UtilizationReply(Database.ResourceUtilization(store.resources)))
    case _ => Failure(ApiError(BadRequest, "Invalid type parameter"))
  }
}
