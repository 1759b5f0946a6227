/** The Timelog reference-data sync: the active projects and the tasks of
    each are upserted by their Timelog ids, and the rows the response no
    longer lists are marked inactive. The Timelog API is a parameter. */
module TimelogSync {
  import opened Wrappers
  import opened Text
  import opened Seqs
  import opened Domain
  import opened Store

  /** A project as the API lists it. */
  datatype ProjectDto = ProjectDto(projectId: int, name: string, description: Option<string>)

  /** A task as the API lists it. */
  datatype TaskDto = TaskDto(taskId: int, name: string, isActive: bool)

  /** The Timelog API: the active projects, and the tasks of a project by
      its Timelog id; Err where the call throws. */
  datatype Api = Api(projects: Result<seq<ProjectDto>>, tasks: int -> Result<seq<TaskDto>>)

  /** The reference tables and the key counter. */
  datatype Catalogue = Catalogue(projects: seq<TimelogProject>, tasks: seq<TimelogTask>, nextId: int)

  /** Why a sync stopped: an API call threw, or the save of a project's
      tasks broke the (project, external id) unique index. */
  datatype SyncFailure = RequestFailed(message: string) | DuplicateTask(projectId: int)

  // ------------------------------------------------------------------
  // Projects
  // ------------------------------------------------------------------

  /** The external id a project is stored under: its Timelog `ProjectId`
      as text. */
  function ProjectKey(dto: ProjectDto): string { IntToString(dto.projectId) }

  function ProjectKeys(dtos: seq<ProjectDto>): (keys: seq<string>)
    ensures |keys| == |dtos| && forall k :: 0 <= k < |dtos| ==> keys[k] == ProjectKey(dtos[k])
  {
    seq(|dtos|, k requires 0 <= k < |dtos| => ProjectKey(dtos[k]))
  }

  function ProjectWithKey(key: string): TimelogProject -> bool {
    (p: TimelogProject) => p.externalId == key
  }

  /** The external ids in the projects table. */
  function StoredKeys(ps: seq<TimelogProject>): set<string> {
    set k | 0 <= k < |ps| :: ps[k].externalId
  }

  /** The last listing of a project in the response: the one whose name and
      description it ends with. */
  function LastProject(dtos: seq<ProjectDto>, key: string): (r: Option<ProjectDto>)
    ensures r.None? <==> key !in ProjectKeys(dtos)
    ensures r.Some? ==> ProjectKey(r.value) == key
  {
    if |dtos| == 0 then None
    else
      var n := |dtos| - 1;
      assert ProjectKeys(dtos) == ProjectKeys(dtos[..n]) + [ProjectKey(dtos[n])];
      if ProjectKey(dtos[n]) == key then Some(dtos[n]) else LastProject(dtos[..n], key)
  }

  /** An existing project brought up to date from its listing. */
  function Refreshed(p: TimelogProject, dto: ProjectDto, now: int): TimelogProject {
    p.(name := dto.name, description := dto.description, isActive := true, lastSyncedAt := now)
  }

  function NewProject(id: int, dto: ProjectDto, now: int): TimelogProject {
    TimelogProject(id, ProjectKey(dto), dto.name, dto.description, true, now)
  }

  /** The upsert of one listed project and its save: the new table, the
      key counter, and the project's position. */
  function UpsertProject(projects: seq<TimelogProject>, next: int, dto: ProjectDto, now: int): (r: (seq<TimelogProject>, int, nat))
    ensures r.2 < |r.0|
  {
    match FindIndex(projects, ProjectWithKey(ProjectKey(dto)))
    case Some(k) => (projects[k := Refreshed(projects[k], dto, now)], next, k)
    case None => (projects + [NewProject(next, dto, now)], next + 1, |projects|)
  }

  /** The upsert leaves one project under the listing's key, with the
      listing's name and description, active and stamped with the time: the
      existing project updated in place, or a new one with the next key. */
  lemma UpsertProjectMeans(projects: seq<TimelogProject>, next: int, dto: ProjectDto, now: int)
    requires ProjectsValid(projects, next)
    ensures var (ps, n, at) := UpsertProject(projects, next, dto, now);
      && ProjectsValid(ps, n) && next <= n
      && ps[at] == Refreshed(ps[at], dto, now) && ps[at].externalId == ProjectKey(dto)
      && (ProjectKey(dto) in StoredKeys(projects) ==>
            at < |projects| && projects[at].externalId == ProjectKey(dto)
            && ps == projects[at := Refreshed(projects[at], dto, now)] && n == next)
      && (ProjectKey(dto) !in StoredKeys(projects) ==>
            ps == projects + [NewProject(next, dto, now)] && n == next + 1 && at == |projects|)
  {
    var key := ProjectKey(dto);
    var (ps, n, at) := UpsertProject(projects, next, dto, now);
    match FindIndex(projects, ProjectWithKey(key))
    case Some(k) =>
      assert SameKeys(projects, ps, ProjectId);
      assert SameKeys(projects, ps, ProjectExternalId);
      SameKeysDistinct(projects, ps, ProjectId);
      SameKeysDistinct(projects, ps, ProjectExternalId);
      SameKeysBelow(projects, ps, ProjectId, next);
    case None =>
      assert key !in StoredKeys(projects);
      DistinctAppend(projects, NewProject(next, dto, now), ProjectId);
      DistinctAppend(projects, NewProject(next, dto, now), ProjectExternalId);
  }

  /** The projects the response no longer lists that are still active:
      the stale query. */
  predicate StaleProject(p: TimelogProject, listed: seq<string>) {
    p.isActive && p.externalId !in listed
  }

  function Deactivated(p: TimelogProject, now: int): TimelogProject {
    p.(isActive := false, lastSyncedAt := now)
  }

  /** The final loop of `SyncAsync`: stale projects become inactive. */
  function RetireProjects(ps: seq<TimelogProject>, listed: seq<string>, now: int): (r: seq<TimelogProject>)
    ensures |r| == |ps|
  {
    seq(|ps|, k requires 0 <= k < |ps| => if StaleProject(ps[k], listed) then Deactivated(ps[k], now) else ps[k])
  }

  /** What a sync does to a project that was stored before it: refreshed
      from its last listing, deactivated when it is active and not listed,
      and left alone otherwise. */
  function ProjectAfter(p: TimelogProject, dtos: seq<ProjectDto>, now: int): TimelogProject {
    match LastProject(dtos, p.externalId)
    case Some(d) => Refreshed(p, d, now)
    case None => if p.isActive then Deactivated(p, now) else p
  }

  // ------------------------------------------------------------------
  // Tasks
  // ------------------------------------------------------------------

  /** The external id a task is stored under: its Timelog `TaskId` as
      text. */
  function TaskKeyOf(dto: TaskDto): string { IntToString(dto.taskId) }

  function TaskKeys(dtos: seq<TaskDto>): (keys: seq<string>)
    ensures |keys| == |dtos| && forall k :: 0 <= k < |dtos| ==> keys[k] == TaskKeyOf(dtos[k])
  {
    seq(|dtos|, k requires 0 <= k < |dtos| => TaskKeyOf(dtos[k]))
  }

  function TaskOf(projectId: int, key: string): TimelogTask -> bool {
    (t: TimelogTask) => t.projectId == projectId && t.externalId == key
  }

  /** The last listing of a task in the response. */
  function LastTask(dtos: seq<TaskDto>, key: string): (r: Option<TaskDto>)
    ensures r.None? <==> key !in TaskKeys(dtos)
    ensures r.Some? ==> TaskKeyOf(r.value) == key
  {
    if |dtos| == 0 then None
    else
      var n := |dtos| - 1;
      assert TaskKeys(dtos) == TaskKeys(dtos[..n]) + [TaskKeyOf(dtos[n])];
      if TaskKeyOf(dtos[n]) == key then Some(dtos[n]) else LastTask(dtos[..n], key)
  }

  function Updated(t: TimelogTask, dto: TaskDto, now: int): TimelogTask {
    t.(name := dto.name, isActive := dto.isActive, lastSyncedAt := now)
  }

  function NewTask(id: int, projectId: int, dto: TaskDto, now: int): TimelogTask {
    TimelogTask(id, TaskKeyOf(dto), dto.name, dto.isActive, now, projectId)
  }

  /** A listed task that the project did not have when its tasks were
      loaded. */
  function Unloaded(loaded: seq<TimelogTask>, projectId: int): TaskDto -> bool {
    (d: TaskDto) => FindIndex(loaded, TaskOf(projectId, TaskKeyOf(d))).None?
  }

  /** The listings that add a task, in order. */
  function Unmatched(loaded: seq<TimelogTask>, projectId: int, dtos: seq<TaskDto>): seq<TaskDto> {
    Filter(dtos, Unloaded(loaded, projectId))
  }

  /** One turn of the task upsert loop. The search is over the tasks loaded
      before the loop, so a task added by an earlier turn is not found. */
  function TaskStep(loaded: seq<TimelogTask>, tasks: seq<TimelogTask>, next: int, projectId: int, dto: TaskDto, now: int): (r: (seq<TimelogTask>, int))
    requires |loaded| <= |tasks|
  {
    match FindIndex(loaded, TaskOf(projectId, TaskKeyOf(dto)))
    case Some(k) => (tasks[k := Updated(tasks[k], dto, now)], next)
    case None => (tasks + [NewTask(next, projectId, dto, now)], next + 1)
  }

  /** The task upsert loop over the listings. */
  function TaskLoop(loaded: seq<TimelogTask>, next: int, projectId: int, dtos: seq<TaskDto>, now: int): (r: (seq<TimelogTask>, int))
    ensures |loaded| <= |r.0|
  {
    if |dtos| == 0 then (loaded, next)
    else
      var n := |dtos| - 1;
      var prev := TaskLoop(loaded, next, projectId, dtos[..n], now);
      TaskStep(loaded, prev.0, prev.1, projectId, dtos[n], now)
  }

  /** A loaded task of the project that is active and not listed. */
  predicate StaleTask(t: TimelogTask, projectId: int, listed: seq<string>) {
    t.projectId == projectId && t.isActive && t.externalId !in listed
  }

  function Retired(t: TimelogTask, now: int): TimelogTask {
    t.(isActive := false, lastSyncedAt := now)
  }

  /** The stale loop over the first `loadedCount` rows, the loaded ones. */
  function RetireTasks(tasks: seq<TimelogTask>, loadedCount: nat, projectId: int, listed: seq<string>, now: int): (r: seq<TimelogTask>)
    ensures |r| == |tasks|
  {
    seq(|tasks|, k requires 0 <= k < |tasks| =>
      if k < loadedCount && StaleTask(tasks[k], projectId, listed) then Retired(tasks[k], now) else tasks[k])
  }

  /** `SyncTasksForProjectAsync` after the API call: both loops and the
      save, which fails on a broken unique index and then changes nothing. */
  function SyncTasks(tasks: seq<TimelogTask>, next: int, projectId: int, dtos: seq<TaskDto>, now: int): (Option<SyncFailure>, seq<TimelogTask>, int) {
    var looped := TaskLoop(tasks, next, projectId, dtos, now);
    var retired := RetireTasks(looped.0, |tasks|, projectId, TaskKeys(dtos), now);
    if Distinct(retired, TaskKey) then (None, retired, looped.1)
    else (Some(DuplicateTask(projectId)), tasks, next)
  }

  /** What a task sync does to a task that was stored before it: tasks of
      other projects are left alone; a task of the project is updated from
      its last listing, deactivated when it is active and not listed, and
      left alone otherwise. */
  function TaskAfter(t: TimelogTask, projectId: int, dtos: seq<TaskDto>, now: int): TimelogTask {
    if t.projectId != projectId then t
    else
      match LastTask(dtos, t.externalId)
      case Some(d) => Updated(t, d, now)
      case None => if t.isActive then Retired(t, now) else t
  }

  /** A loaded task after the upsert loop has run over `dtos`: updated
      from its last listing when it is a task of the project, and left alone
      otherwise. */
  function LoopedTask(t: TimelogTask, projectId: int, dtos: seq<TaskDto>, now: int): TimelogTask {
    if t.projectId != projectId then t
    else
      match LastTask(dtos, t.externalId)
      case Some(d) => Updated(t, d, now)
      case None => t
  }

  /** The tables after the upsert loop has run over `dtos`: each loaded
      task as `LoopedTask` says, then one task per listing the project did
      not have, in order and with the next keys. */
  predicate TasksAfterLoop(loaded: seq<TimelogTask>, next: int, projectId: int, dtos: seq<TaskDto>, now: int,
                           tasks: seq<TimelogTask>, nextAfter: int) {
    var u := Unmatched(loaded, projectId, dtos);
    && |tasks| == |loaded| + |u| && nextAfter == next + |u|
    && (forall k :: 0 <= k < |loaded| ==> tasks[k] == LoopedTask(loaded[k], projectId, dtos, now))
    && (forall j :: 0 <= j < |u| ==> tasks[|loaded| + j] == NewTask(next + j, projectId, u[j], now))
  }

  lemma LoopedTaskAppend(t: TimelogTask, projectId: int, dtos: seq<TaskDto>, d: TaskDto, now: int)
    ensures LoopedTask(t, projectId, dtos + [d], now) ==
      if t.projectId == projectId && t.externalId == TaskKeyOf(d)
      then Updated(LoopedTask(t, projectId, dtos, now), d, now)
      else LoopedTask(t, projectId, dtos, now)
  {
    assert (dtos + [d])[..|dtos|] == dtos;
  }

  /** One turn of the upsert loop extends what it has done by the next
      listing. */
  lemma TaskStepMeans(loaded: seq<TimelogTask>, next: int, projectId: int, dtos: seq<TaskDto>, d: TaskDto, now: int,
                      tasks: seq<TimelogTask>, nextAfter: int)
    requires Distinct(loaded, TaskKey)
    requires TasksAfterLoop(loaded, next, projectId, dtos, now, tasks, nextAfter)
    ensures var r := TaskStep(loaded, tasks, nextAfter, projectId, d, now);
      TasksAfterLoop(loaded, next, projectId, dtos + [d], now, r.0, r.1)
  {
    FilterAppend(dtos, [d], Unloaded(loaded, projectId));
    match FindIndex(loaded, TaskOf(projectId, TaskKeyOf(d)))
    case Some(k0) => TaskStepFound(loaded, next, projectId, dtos, d, now, tasks, nextAfter, k0);
    case None => TaskStepAdded(loaded, next, projectId, dtos, d, now, tasks, nextAfter);
  }

  lemma TaskStepFound(loaded: seq<TimelogTask>, next: int, projectId: int, dtos: seq<TaskDto>, d: TaskDto, now: int,
                      tasks: seq<TimelogTask>, nextAfter: int, k0: nat)
    requires Distinct(loaded, TaskKey)
    requires TasksAfterLoop(loaded, next, projectId, dtos, now, tasks, nextAfter)
    requires FindIndex(loaded, TaskOf(projectId, TaskKeyOf(d))) == Some(k0)
    requires Unmatched(loaded, projectId, dtos + [d]) == Unmatched(loaded, projectId, dtos)
    ensures TasksAfterLoop(loaded, next, projectId, dtos + [d], now, tasks[k0 := Updated(tasks[k0], d, now)], nextAfter)
  {
    var key := TaskKeyOf(d);
    var r := tasks[k0 := Updated(tasks[k0], d, now)];
    forall k | 0 <= k < |loaded| ensures r[k] == LoopedTask(loaded[k], projectId, dtos + [d], now) {
      LoopedTaskAppend(loaded[k], projectId, dtos, d, now);
      if k != k0 && loaded[k].projectId == projectId && loaded[k].externalId == key {
        DistinctUnique(loaded, TaskKey, k, k0);
      }
    }
    var u := Unmatched(loaded, projectId, dtos);
    forall j | 0 <= j < |u| ensures r[|loaded| + j] == NewTask(next + j, projectId, u[j], now) {
      assert |loaded| + j != k0;
    }
  }

  lemma TaskStepAdded(loaded: seq<TimelogTask>, next: int, projectId: int, dtos: seq<TaskDto>, d: TaskDto, now: int,
                      tasks: seq<TimelogTask>, nextAfter: int)
    requires TasksAfterLoop(loaded, next, projectId, dtos, now, tasks, nextAfter)
    requires FindIndex(loaded, TaskOf(projectId, TaskKeyOf(d))).None?
    requires Unmatched(loaded, projectId, dtos + [d]) == Unmatched(loaded, projectId, dtos) + [d]
    ensures TasksAfterLoop(loaded, next, projectId, dtos + [d], now, tasks + [NewTask(nextAfter, projectId, d, now)], nextAfter + 1)
  {
    var r := tasks + [NewTask(nextAfter, projectId, d, now)];
    forall k | 0 <= k < |loaded| ensures r[k] == LoopedTask(loaded[k], projectId, dtos + [d], now) {
      LoopedTaskAppend(loaded[k], projectId, dtos, d, now);
      assert !TaskOf(projectId, TaskKeyOf(d))(loaded[k]);
    }
  }

  /** The upsert loop updates each loaded task of the project from its last
      listing and appends one task per listing the project did not have. */
  lemma {:induction false} TaskLoopMeans(loaded: seq<TimelogTask>, next: int, projectId: int, dtos: seq<TaskDto>, now: int)
    requires Distinct(loaded, TaskKey)
    ensures var r := TaskLoop(loaded, next, projectId, dtos, now);
      TasksAfterLoop(loaded, next, projectId, dtos, now, r.0, r.1)
  {
    if |dtos| > 0 {
      var n := |dtos| - 1;
      assert dtos[..n] + [dtos[n]] == dtos;
      var prev := TaskLoop(loaded, next, projectId, dtos[..n], now);
      assert TaskLoop(loaded, next, projectId, dtos, now) == TaskStep(loaded, prev.0, prev.1, projectId, dtos[n], now);
      TaskLoopMeans(loaded, next, projectId, dtos[..n], now);
      TaskStepMeans(loaded, next, projectId, dtos[..n], dtos[n], now, prev.0, prev.1);
    }
  }

  /** A table of distinct keys stays distinct after appending rows of new
      keys exactly when the appended rows have distinct keys. */
  lemma AppendedDistinct(s: seq<TimelogTask>, added: seq<TimelogTask>)
    requires Distinct(s, TaskKey)
    requires forall i, j :: 0 <= i < |s| && 0 <= j < |added| ==> TaskKey(s[i]) != TaskKey(added[j])
    ensures Distinct(s + added, TaskKey) <==> Distinct(added, TaskKey)
  {
    if Distinct(added, TaskKey) {
      DistinctConcat(s, added, TaskKey);
    } else {
      var a, b :| 0 <= a < b < |added| && TaskKey(added[a]) == TaskKey(added[b]);
      assert (s + added)[|s| + a] == added[a] && (s + added)[|s| + b] == added[b];
    }
  }

  /** The stale loop turns what the upsert loop did to a stored task into
      what `TaskAfter` says. */
  lemma RetiredRows(tasks: seq<TimelogTask>, next: int, projectId: int, dtos: seq<TaskDto>, now: int,
                    looped: seq<TimelogTask>, nextAfter: int)
    requires TasksAfterLoop(tasks, next, projectId, dtos, now, looped, nextAfter)
    ensures var r := RetireTasks(looped, |tasks|, projectId, TaskKeys(dtos), now);
      var u := Unmatched(tasks, projectId, dtos);
      && |r| == |tasks| + |u|
      && (forall k :: 0 <= k < |tasks| ==> r[k] == TaskAfter(tasks[k], projectId, dtos, now))
      && (forall j :: 0 <= j < |u| ==> r[|tasks| + j] == NewTask(next + j, projectId, u[j], now))
  {
    var r := RetireTasks(looped, |tasks|, projectId, TaskKeys(dtos), now);
    forall k | 0 <= k < |tasks| ensures r[k] == TaskAfter(tasks[k], projectId, dtos, now) {
      assert looped[k] == LoopedTask(tasks[k], projectId, dtos, now);
    }
  }

  /** The rows a task sync would save keep the unique index exactly when
      the new listings have distinct ids, and then keep every key of the
      table valid. */
  lemma SavedKeys(tasks: seq<TimelogTask>, next: int, projectId: int, u: seq<TaskDto>, now: int, r: seq<TimelogTask>)
    requires TasksValid(tasks, next)
    requires |r| == |tasks| + |u|
    requires forall k :: 0 <= k < |tasks| ==> TaskKey(r[k]) == TaskKey(tasks[k]) && r[k].id == tasks[k].id
    requires forall j :: 0 <= j < |u| ==> r[|tasks| + j] == NewTask(next + j, projectId, u[j], now)
    requires forall j :: 0 <= j < |u| ==> Unloaded(tasks, projectId)(u[j])
    ensures Distinct(r, TaskKey) <==> Distinct(u, TaskKeyOf)
    ensures Distinct(r, TaskKey) ==> TasksValid(r, next + |u|)
  {
    var old' := r[..|tasks|];
    var added := r[|tasks|..];
    assert r == old' + added;
    assert SameKeys(tasks, old', TaskKey);
    SameKeysDistinct(tasks, old', TaskKey);
    forall i, j | 0 <= i < |old'| && 0 <= j < |added| ensures TaskKey(old'[i]) != TaskKey(added[j]) {
      assert added[j] == NewTask(next + j, projectId, u[j], now);
      assert Unloaded(tasks, projectId)(u[j]);
      assert !TaskOf(projectId, TaskKeyOf(u[j]))(tasks[i]);
    }
    AppendedDistinct(old', added);
    assert Distinct(added, TaskKey) <==> Distinct(u, TaskKeyOf) by {
      assert forall j :: 0 <= j < |added| ==> TaskKey(added[j]) == (projectId, TaskKeyOf(u[j]));
    }
    if Distinct(r, TaskKey) {
      assert SameKeys(tasks, old', TaskId);
      SameKeysDistinct(tasks, old', TaskId);
      forall j | 0 <= j < |added| ensures TaskId(added[j]) == next + j {
        assert added[j] == r[|tasks| + j] == NewTask(next + j, projectId, u[j], now);
      }
      forall i, j | 0 <= i < |old'| && 0 <= j < |added| ensures TaskId(old'[i]) != TaskId(added[j]) {
        assert TaskId(old'[i]) == TaskId(tasks[i]) < next;
      }
      DistinctConcat(old', added, TaskId);
      forall k | 0 <= k < |r| ensures TaskId(r[k]) < next + |u| {
        if k < |tasks| {
          assert TaskId(r[k]) == TaskId(tasks[k]);
        } else {
          assert r[k] == added[k - |tasks|];
        }
      }
    }
  }

  /** A task sync either saves, or fails with a broken unique index and
      changes nothing; it fails exactly when a task the project did not have
      is listed twice. When it saves, every task stored before is changed
      as `TaskAfter` says, one task is added per new listing with the next
      keys, and the table keeps its keys unique. */
  lemma SyncTasksMeans(tasks: seq<TimelogTask>, next: int, projectId: int, dtos: seq<TaskDto>, now: int)
    requires TasksValid(tasks, next)
    ensures var r := SyncTasks(tasks, next, projectId, dtos, now);
      var u := Unmatched(tasks, projectId, dtos);
      && (r.0.None? <==> Distinct(u, TaskKeyOf))
      && (r.0.Some? ==> r.0.value == DuplicateTask(projectId) && r.1 == tasks && r.2 == next)
      && (r.0.None? ==>
            && |r.1| == |tasks| + |u| && r.2 == next + |u| && TasksValid(r.1, r.2)
            && (forall k :: 0 <= k < |tasks| ==> r.1[k] == TaskAfter(tasks[k], projectId, dtos, now))
            && (forall j :: 0 <= j < |u| ==> r.1[|tasks| + j] == NewTask(next + j, projectId, u[j], now)))
  {
    var looped := TaskLoop(tasks, next, projectId, dtos, now);
    var retired := RetireTasks(looped.0, |tasks|, projectId, TaskKeys(dtos), now);
    var u := Unmatched(tasks, projectId, dtos);
    TaskLoopMeans(tasks, next, projectId, dtos, now);
    RetiredRows(tasks, next, projectId, dtos, now, looped.0, looped.1);
    SavedKeys(tasks, next, projectId, u, now, retired);
  }

  // ------------------------------------------------------------------
  // The sync
  // ------------------------------------------------------------------

  /** One turn of the project loop: the project's upsert and save, the
      task call and the project's task sync. A failure ends the sync with
      the project's save kept. */
  function Round(c: Catalogue, dto: ProjectDto, api: Api, now: int): (Option<SyncFailure>, Catalogue) {
    var up := UpsertProject(c.projects, c.nextId, dto, now);
    match api.tasks(dto.projectId)
    case Err(m) => (Some(RequestFailed(m)), Catalogue(up.0, c.tasks, up.1))
    case Ok(taskDtos) =>
      var t := SyncTasks(c.tasks, up.1, up.0[up.2].id, taskDtos, now);
      (t.0, Catalogue(up.0, t.1, t.2))
  }

  /** The project loop over the listings, stopping at the first failure. */
  function ProjectLoop(c: Catalogue, dtos: seq<ProjectDto>, api: Api, now: int): (Option<SyncFailure>, Catalogue) {
    if |dtos| == 0 then (None, c)
    else
      var n := |dtos| - 1;
      var prev := ProjectLoop(c, dtos[..n], api, now);
      if prev.0.Some? then prev else Round(prev.1, dtos[n], api, now)
  }

  /** `SyncAsync`: the failure that stopped it, if any, and the tables. */
  function Sync(c: Catalogue, api: Api, now: int): (Option<SyncFailure>, Catalogue) {
    match api.projects
    case Err(m) => (Some(RequestFailed(m)), c)
    case Ok(dtos) =>
      var looped := ProjectLoop(c, dtos, api, now);
      if looped.0.Some? then looped
      else (None, looped.1.(projects := RetireProjects(looped.1.projects, ProjectKeys(dtos), now)))
  }

  predicate CatalogueValid(c: Catalogue) {
    ProjectsValid(c.projects, c.nextId) && TasksValid(c.tasks, c.nextId)
  }

  /** A project turn keeps both tables' keys unique, never lowers the key
      counter, and lists the project's key. */
  lemma RoundValid(c: Catalogue, dto: ProjectDto, api: Api, now: int)
    requires CatalogueValid(c)
    ensures var r := Round(c, dto, api, now).1;
      CatalogueValid(r) && c.nextId <= r.nextId
  {
    var up := UpsertProject(c.projects, c.nextId, dto, now);
    UpsertProjectMeans(c.projects, c.nextId, dto, now);
    assert TasksValid(c.tasks, up.1);
    if api.tasks(dto.projectId).Ok? {
      SyncTasksMeans(c.tasks, up.1, up.0[up.2].id, api.tasks(dto.projectId).value, now);
    }
  }

  /** A stored project after the project turns over `dtos`: refreshed from
      its last listing, or left alone when it is not listed. */
  function LoopedProject(p: TimelogProject, dtos: seq<ProjectDto>, now: int): TimelogProject {
    match LastProject(dtos, p.externalId)
    case Some(d) => Refreshed(p, d, now)
    case None => p
  }

  /** A project carries its last listing in `dtos`: listed, with that
      listing's name and description, active and stamped. */
  predicate Listed(p: TimelogProject, dtos: seq<ProjectDto>, now: int) {
    p.externalId in ProjectKeys(dtos) && p == Refreshed(p, LastProject(dtos, p.externalId).value, now)
  }

  /** The projects after the project turns: each one stored before as
      `LoopedProject` says, each added one carrying its last listing, and
      every listed key stored. */
  predicate ProjectsAfterLoop(before: seq<TimelogProject>, ps: seq<TimelogProject>, dtos: seq<ProjectDto>, now: int) {
    && |before| <= |ps|
    && (forall k :: 0 <= k < |before| ==> ps[k] == LoopedProject(before[k], dtos, now))
    && (forall k :: |before| <= k < |ps| ==> Listed(ps[k], dtos, now))
    && (forall i :: 0 <= i < |dtos| ==> ProjectKey(dtos[i]) in StoredKeys(ps))
  }

  lemma ProjectKeysAppend(dtos: seq<ProjectDto>, d: ProjectDto)
    ensures ProjectKeys(dtos + [d]) == ProjectKeys(dtos) + [ProjectKey(d)]
  {
  }

  lemma LastProjectAppend(dtos: seq<ProjectDto>, d: ProjectDto, key: string)
    ensures LastProject(dtos + [d], key) == if ProjectKey(d) == key then Some(d) else LastProject(dtos, key)
  {
    assert (dtos + [d])[..|dtos|] == dtos;
  }

  /** One more listing changes only the project under its key. */
  lemma ListingAppend(p: TimelogProject, dtos: seq<ProjectDto>, d: ProjectDto, now: int)
    ensures p.externalId == ProjectKey(d) ==> LoopedProject(p, dtos + [d], now) == Refreshed(p, d, now)
    ensures p.externalId == ProjectKey(d) ==> (Listed(p, dtos + [d], now) <==> p == Refreshed(p, d, now))
    ensures p.externalId != ProjectKey(d) ==> LoopedProject(p, dtos + [d], now) == LoopedProject(p, dtos, now)
    ensures p.externalId != ProjectKey(d) ==> (Listed(p, dtos + [d], now) <==> Listed(p, dtos, now))
  {
    LastProjectAppend(dtos, d, p.externalId);
    ProjectKeysAppend(dtos, d);
  }

  lemma {:induction false} ProjectLoopMeans(c: Catalogue, dtos: seq<ProjectDto>, api: Api, now: int)
    requires CatalogueValid(c)
    ensures var r := ProjectLoop(c, dtos, api, now);
      && CatalogueValid(r.1) && c.nextId <= r.1.nextId
      && (r.0.None? ==> ProjectsAfterLoop(c.projects, r.1.projects, dtos, now))
  {
    if |dtos| > 0 {
      var n := |dtos| - 1;
      var d := dtos[n];
      assert dtos[..n] + [d] == dtos;
      ProjectLoopMeans(c, dtos[..n], api, now);
      var prev := ProjectLoop(c, dtos[..n], api, now);
      if prev.0.None? {
        RoundValid(prev.1, d, api, now);
        var r := Round(prev.1, d, api, now);
        if r.0.None? {
          ProjectTurn(c.projects, prev.1.projects, dtos[..n], d, prev.1.nextId, now);
        }
      }
    }
  }

  /** One project turn extends what the loop has done to the listings so
      far by the next listing. */
  lemma ProjectTurn(before: seq<TimelogProject>, ps: seq<TimelogProject>, dtos: seq<ProjectDto>, d: ProjectDto, next: int, now: int)
    requires ProjectsValid(ps, next)
    requires ProjectsAfterLoop(before, ps, dtos, now)
    ensures ProjectsAfterLoop(before, UpsertProject(ps, next, d, now).0, dtos + [d], now)
  {
    if ProjectKey(d) in StoredKeys(ps) {
      ProjectTurnFound(before, ps, dtos, d, next, now);
    } else {
      ProjectTurnAdded(before, ps, dtos, d, next, now);
    }
  }

  lemma ProjectTurnFound(before: seq<TimelogProject>, ps: seq<TimelogProject>, dtos: seq<ProjectDto>, d: ProjectDto, next: int, now: int)
    requires ProjectsValid(ps, next)
    requires ProjectsAfterLoop(before, ps, dtos, now)
    requires ProjectKey(d) in StoredKeys(ps)
    ensures ProjectsAfterLoop(before, UpsertProject(ps, next, d, now).0, dtos + [d], now)
  {
    UpsertProjectMeans(ps, next, d, now);
    var key := ProjectKey(d);
    var at := UpsertProject(ps, next, d, now).2;
    var qs := ps[at := Refreshed(ps[at], d, now)];
    forall k | 0 <= k < |ps| && k != at ensures ps[k].externalId != key {
      if ps[k].externalId == key {
        DistinctUnique(ps, ProjectExternalId, k, at);
      }
    }
    forall k | 0 <= k < |before| ensures qs[k] == LoopedProject(before[k], dtos + [d], now) {
      ListingAppend(before[k], dtos, d, now);
      assert ps[k] == LoopedProject(before[k], dtos, now);
    }
    forall k | |before| <= k < |qs| ensures Listed(qs[k], dtos + [d], now) {
      ListingAppend(qs[k], dtos, d, now);
      ListingAppend(ps[k], dtos, d, now);
    }
    forall i | 0 <= i < |dtos + [d]| ensures ProjectKey((dtos + [d])[i]) in StoredKeys(qs) {
      if i < |dtos| {
        var k :| 0 <= k < |ps| && ps[k].externalId == ProjectKey(dtos[i]);
        assert qs[k].externalId == ps[k].externalId;
      } else {
        assert qs[at].externalId == key;
      }
    }
  }

  lemma ProjectTurnAdded(before: seq<TimelogProject>, ps: seq<TimelogProject>, dtos: seq<ProjectDto>, d: ProjectDto, next: int, now: int)
    requires ProjectsValid(ps, next)
    requires ProjectsAfterLoop(before, ps, dtos, now)
    requires ProjectKey(d) !in StoredKeys(ps)
    ensures ProjectsAfterLoop(before, UpsertProject(ps, next, d, now).0, dtos + [d], now)
  {
    UpsertProjectMeans(ps, next, d, now);
    var key := ProjectKey(d);
    var added := NewProject(next, d, now);
    var qs := ps + [added];
    forall k | 0 <= k < |ps| ensures ps[k].externalId != key {
      assert ps[k].externalId in StoredKeys(ps);
    }
    forall k | 0 <= k < |before| ensures qs[k] == LoopedProject(before[k], dtos + [d], now) {
      ListingAppend(before[k], dtos, d, now);
      assert ps[k] == LoopedProject(before[k], dtos, now);
    }
    forall k | |before| <= k < |qs| ensures Listed(qs[k], dtos + [d], now) {
      ListingAppend(qs[k], dtos, d, now);
    }
    forall i | 0 <= i < |dtos + [d]| ensures ProjectKey((dtos + [d])[i]) in StoredKeys(qs) {
      if i < |dtos| {
        var k :| 0 <= k < |ps| && ps[k].externalId == ProjectKey(dtos[i]);
        assert qs[k] == ps[k];
      } else {
        assert qs[|ps|].externalId == key;
      }
    }
  }

  /** A sync whose project call throws changes nothing. Any sync keeps
      both tables' keys unique, so no project is ever stored twice. One that
      completes leaves every project stored before as `ProjectAfter` says,
      every listed project stored, and every added project listed, active,
      stamped and carrying its last listing. */
  lemma SyncMeans(c: Catalogue, api: Api, now: int)
    requires CatalogueValid(c)
    ensures var r := Sync(c, api, now);
      && (api.projects.Err? ==> r == (Some(RequestFailed(api.projects.error)), c))
      && CatalogueValid(r.1) && c.nextId <= r.1.nextId
      && (r.0.None? ==>
            var dtos := api.projects.value;
            && |c.projects| <= |r.1.projects|
            && (forall k :: 0 <= k < |c.projects| ==> r.1.projects[k] == ProjectAfter(c.projects[k], dtos, now))
            && (forall k :: |c.projects| <= k < |r.1.projects| ==>
                  r.1.projects[k].externalId in ProjectKeys(dtos)
                  && r.1.projects[k] == Refreshed(r.1.projects[k], LastProject(dtos, r.1.projects[k].externalId).value, now))
            && (forall i :: 0 <= i < |dtos| ==> ProjectKey(dtos[i]) in StoredKeys(r.1.projects)))
  {
    if api.projects.Ok? {
      var dtos := api.projects.value;
      ProjectLoopMeans(c, dtos, api, now);
      var looped := ProjectLoop(c, dtos, api, now);
      if looped.0.None? {
        var ps := looped.1.projects;
        var listed := ProjectKeys(dtos);
        var qs := RetireProjects(ps, listed, now);
        RetireProjectsValid(ps, listed, now, looped.1.nextId);
        forall i | 0 <= i < |dtos| ensures ProjectKey(dtos[i]) in StoredKeys(qs) {
          var k :| 0 <= k < |ps| && ps[k].externalId == ProjectKey(dtos[i]);
          assert qs[k].externalId == ps[k].externalId;
        }
      }
    }
  }

  /** `GetLastSyncedAtAsync`: the latest sync stamp of any project, None
      without projects. */
  function LastSyncedAt(ps: seq<TimelogProject>): (r: Option<int>)
    ensures r.None? <==> |ps| == 0
    ensures r.Some? ==> exists k :: 0 <= k < |ps| && ps[k].lastSyncedAt == r.value
    ensures r.Some? ==> forall k :: 0 <= k < |ps| ==> ps[k].lastSyncedAt <= r.value
  {
    var sorted := SortByDescending(ps, SyncedAt);
    if |sorted| == 0 then None
    else
      SameElements(ps, sorted);
      assert forall k :: 0 <= k < |sorted| ==> SyncedAt(sorted[0]) >= SyncedAt(sorted[k]);
      SamePlaceBound(ps, sorted);
      Some(sorted[0].lastSyncedAt)
  }

  function SyncedAt(p: TimelogProject): int { p.lastSyncedAt }

  /** A bound on every element of a permutation bounds every element of
      the original. */
  lemma SamePlaceBound(ps: seq<TimelogProject>, sorted: seq<TimelogProject>)
    requires multiset(ps) == multiset(sorted) && |sorted| > 0
    requires forall k :: 0 <= k < |sorted| ==> sorted[k].lastSyncedAt <= sorted[0].lastSyncedAt
    ensures forall k :: 0 <= k < |ps| ==> ps[k].lastSyncedAt <= sorted[0].lastSyncedAt
    ensures exists k :: 0 <= k < |ps| && ps[k] == sorted[0]
  {
    SameElements(ps, sorted);
    forall k | 0 <= k < |ps| ensures ps[k].lastSyncedAt <= sorted[0].lastSyncedAt {
      var j :| 0 <= j < |sorted| && sorted[j] == ps[k];
    }
  }

  // ------------------------------------------------------------------
  // The service
  // ------------------------------------------------------------------

  /** The upsert of one listed project and its `SaveChangesAsync`. */
  method UpsertProjectRow(db: Db, dto: ProjectDto, now: int) returns (at: nat)
    requires db.Valid()
    modifies db`projects, db`nextId
    ensures db.Valid() && old(db.nextId) <= db.nextId
    ensures (db.projects, db.nextId, at) == UpsertProject(old(db.projects), old(db.nextId), dto, now)
  {
    UpsertProjectMeans(db.projects, db.nextId, dto, now);
    var key := ProjectKey(dto);
    var found := FindIndex(db.projects, ProjectWithKey(key));
    if found.None? {
      db.projects := db.projects + [NewProject(db.nextId, dto, now)];
      db.nextId := db.nextId + 1;
      at := |db.projects| - 1;
    } else {
      at := found.value;
      db.projects := db.projects[at := Refreshed(db.projects[at], dto, now)];
    }
  }

  /** The upsert loop of `SyncTasksForProjectAsync` over the tracked rows. */
  method UpsertTasks(loaded: seq<TimelogTask>, next: int, projectId: int, dtos: seq<TaskDto>, now: int)
    returns (tasks: seq<TimelogTask>, nextAfter: int)
    ensures (tasks, nextAfter) == TaskLoop(loaded, next, projectId, dtos, now)
  {
    tasks, nextAfter := loaded, next;
    var i := 0;
    while i < |dtos|
      invariant 0 <= i <= |dtos|
      invariant (tasks, nextAfter) == TaskLoop(loaded, next, projectId, dtos[..i], now)
    {
      var dto := dtos[i];
      TaskLoopNext(loaded, next, projectId, dtos, i, now);
      ghost var step := TaskStep(loaded, tasks, nextAfter, projectId, dto, now);
      var existing := FindIndex(loaded, TaskOf(projectId, TaskKeyOf(dto)));
      if existing.None? {
        tasks := tasks + [NewTask(nextAfter, projectId, dto, now)];
        nextAfter := nextAfter + 1;
      } else {
        var k := existing.value;
        tasks := tasks[k := Updated(tasks[k], dto, now)];
      }
      assert (tasks, nextAfter) == step;
      i := i + 1;
    }
    assert dtos[..|dtos|] == dtos;
  }

  /** The loop over one more listing takes one more step. */
  lemma TaskLoopNext(loaded: seq<TimelogTask>, next: int, projectId: int, dtos: seq<TaskDto>, i: nat, now: int)
    requires i < |dtos|
    ensures var prev := TaskLoop(loaded, next, projectId, dtos[..i], now);
      TaskLoop(loaded, next, projectId, dtos[..i + 1], now) == TaskStep(loaded, prev.0, prev.1, projectId, dtos[i], now)
  {
    assert dtos[..i + 1][..i] == dtos[..i];
  }

  /** The stale loop of `SyncTasksForProjectAsync` over the loaded rows,
      the first `loadedCount`. */
  method RetireStaleTasks(looped: seq<TimelogTask>, loadedCount: nat, projectId: int, listed: seq<string>, now: int)
    returns (tasks: seq<TimelogTask>)
    requires loadedCount <= |looped|
    ensures tasks == RetireTasks(looped, loadedCount, projectId, listed, now)
  {
    tasks := looped;
    var k := 0;
    while k < loadedCount
      invariant 0 <= k <= loadedCount && |tasks| == |looped|
      invariant forall j :: 0 <= j < |tasks| ==>
        tasks[j] == if j < k && StaleTask(looped[j], projectId, listed) then Retired(looped[j], now) else looped[j]
    {
      if tasks[k].projectId == projectId && tasks[k].isActive && tasks[k].externalId !in listed {
        tasks := tasks[k := Retired(tasks[k], now)];
      }
      k := k + 1;
    }
  }

  /** `SyncTasksForProjectAsync` after the API call: the upsert loop over
      the listings, the stale loop over the loaded tasks, and the save. */
  method SyncProjectTasks(db: Db, projectId: int, dtos: seq<TaskDto>, now: int) returns (failure: Option<SyncFailure>)
    requires db.Valid()
    modifies db`tasks, db`nextId
    ensures db.Valid() && old(db.nextId) <= db.nextId
    ensures (failure, db.tasks, db.nextId) == SyncTasks(old(db.tasks), old(db.nextId), projectId, dtos, now)
  {
    var loaded := db.tasks;
    var looped, next := UpsertTasks(loaded, db.nextId, projectId, dtos, now);
    var tasks := RetireStaleTasks(looped, |loaded|, projectId, TaskKeys(dtos), now);
    SyncTasksMeans(loaded, db.nextId, projectId, dtos, now);
    if !Distinct(tasks, TaskKey) {
      return Some(DuplicateTask(projectId));
    }
    db.tasks, db.nextId := tasks, next;
    return None;
  }

  /** The project loop of `SyncAsync`: each listed project is upserted
      and saved, and its tasks synced, until one of them fails. */
  method SyncProjects(db: Db, dtos: seq<ProjectDto>, api: Api, now: int) returns (failure: Option<SyncFailure>)
    requires db.Valid()
    modifies db`projects, db`tasks, db`nextId
    ensures db.Valid()
    ensures (failure, Catalogue(db.projects, db.tasks, db.nextId)) ==
      ProjectLoop(Catalogue(old(db.projects), old(db.tasks), old(db.nextId)), dtos, api, now)
  {
    ghost var start := Catalogue(db.projects, db.tasks, db.nextId);
    failure := None;
    var i := 0;
    while i < |dtos|
      invariant 0 <= i <= |dtos| && db.Valid() && failure.None?
      invariant ProjectLoop(start, dtos[..i], api, now) == (None, Catalogue(db.projects, db.tasks, db.nextId))
    {
      assert dtos[..i + 1] == dtos[..i] + [dtos[i]];
      ProjectLoopAppend(start, dtos[..i], dtos[i], api, now);
      failure := SyncProject(db, dtos[i], api, now);
      if failure.Some? {
        ProjectLoopStops(start, dtos, i + 1, api, now);
        return;
      }
      i := i + 1;
    }
    assert dtos[..|dtos|] == dtos;
  }

  /** One turn of the project loop: the upsert and save of the project,
      the task call, and the sync of the project's tasks. */
  method SyncProject(db: Db, dto: ProjectDto, api: Api, now: int) returns (failure: Option<SyncFailure>)
    requires db.Valid()
    modifies db`projects, db`tasks, db`nextId
    ensures db.Valid()
    ensures (failure, Catalogue(db.projects, db.tasks, db.nextId)) ==
      Round(Catalogue(old(db.projects), old(db.tasks), old(db.nextId)), dto, api, now)
  {
    var at := UpsertProjectRow(db, dto, now);
    var response := api.tasks(dto.projectId);
    if response.Err? {
      return Some(RequestFailed(response.error));
    }
    failure := SyncProjectTasks(db, db.projects[at].id, response.value, now);
  }

  lemma ProjectLoopAppend(c: Catalogue, dtos: seq<ProjectDto>, d: ProjectDto, api: Api, now: int)
    requires ProjectLoop(c, dtos, api, now).0.None?
    ensures ProjectLoop(c, dtos + [d], api, now) == Round(ProjectLoop(c, dtos, api, now).1, d, api, now)
  {
    assert (dtos + [d])[..|dtos|] == dtos;
  }

  /** The stale loop of `SyncAsync`. */
  method RetireStaleProjects(ps: seq<TimelogProject>, listed: seq<string>, now: int) returns (qs: seq<TimelogProject>)
    ensures qs == RetireProjects(ps, listed, now)
  {
    qs := ps;
    var k := 0;
    while k < |qs|
      invariant 0 <= k <= |qs| == |ps|
      invariant forall j :: 0 <= j < |ps| ==>
        qs[j] == if j < k && StaleProject(ps[j], listed) then Deactivated(ps[j], now) else ps[j]
    {
      if qs[k].isActive && qs[k].externalId !in listed {
        qs := qs[k := Deactivated(qs[k], now)];
      }
      k := k + 1;
    }
  }

  /** Deactivating projects keeps the table's keys valid. */
  lemma RetireProjectsValid(ps: seq<TimelogProject>, listed: seq<string>, now: int, next: int)
    requires ProjectsValid(ps, next)
    ensures ProjectsValid(RetireProjects(ps, listed, now), next)
  {
    var qs := RetireProjects(ps, listed, now);
    assert SameKeys(ps, qs, ProjectId);
    assert SameKeys(ps, qs, ProjectExternalId);
    SameKeysDistinct(ps, qs, ProjectId);
    SameKeysDistinct(ps, qs, ProjectExternalId);
    SameKeysBelow(ps, qs, ProjectId, next);
  }

  /** `SyncAsync`, the API answers given by `api` and the clock by
      `now`. */
  method SyncCatalogue(db: Db, api: Api, now: int) returns (failure: Option<SyncFailure>)
    requires db.Valid()
    modifies db`projects, db`tasks, db`nextId
    ensures db.Valid()
    ensures (failure, Catalogue(db.projects, db.tasks, db.nextId)) ==
      Sync(Catalogue(old(db.projects), old(db.tasks), old(db.nextId)), api, now)
  {
    if api.projects.Err? {
      return Some(RequestFailed(api.projects.error));
    }
    var dtos := api.projects.value;
    failure := SyncProjects(db, dtos, api, now);
    if failure.Some? {
      return;
    }
    var retired := RetireStaleProjects(db.projects, ProjectKeys(dtos), now);
    RetireProjectsValid(db.projects, ProjectKeys(dtos), now, db.nextId);
    db.projects := retired;
  }

  /** Once a turn fails, the loop over any longer run of listings ends with
      that failure. */
  lemma {:induction false} ProjectLoopStops(c: Catalogue, dtos: seq<ProjectDto>, i: nat, api: Api, now: int)
    requires i <= |dtos| && ProjectLoop(c, dtos[..i], api, now).0.Some?
    ensures ProjectLoop(c, dtos, api, now) == ProjectLoop(c, dtos[..i], api, now)
    decreases |dtos| - i
  {
    if i < |dtos| {
      assert dtos[..i + 1][..i] == dtos[..i];
      ProjectLoopStops(c, dtos, i + 1, api, now);
    } else {
      assert dtos[..i] == dtos;
    }
  }
}
