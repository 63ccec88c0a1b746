/** The conversion of an AI-parsed project tree into flat project and task lists
    (ai-notebook/components/ai-project-splitter.tsx, handleSplitProjects). The AI call and
    the JSON extraction are an oracle whose answer is the parsed tree; every timestamp is
    `now`. The rows are specified against the ids the conversion asked the generator for,
    recorded in the shape of the tree they were used in. */
module AiProjectSplitter {
  import opened Wrappers
  import opened Text
  import opened ProjectTypes
  import opened Ids
  import Seqs

  // ---------------------------------------------------------------------------
  // The parsed tree. A list field that is missing or not an array is None.

  datatype ParsedSubtask = ParsedSubtask(title: string, description: Option<string>)

  datatype ParsedTask = ParsedTask(
    title: string,
    description: Option<string>,
    priority: Option<string>,
    subtasks: Option<seq<ParsedSubtask>>)

  datatype ParsedProject = ParsedProject(name: string, tasks: Option<seq<ParsedTask>>)

  datatype Split = Split(projects: seq<Project>, tasks: seq<ProjectTask>)

  function SubtasksOf(t: ParsedTask): seq<ParsedSubtask> {
    if t.subtasks.Some? then t.subtasks.value else []
  }

  function TasksOf(p: ParsedProject): seq<ParsedTask> {
    if p.tasks.Some? then p.tasks.value else []
  }

  // ---------------------------------------------------------------------------
  // The ids handed out, in the shape of the tree

  /** The id of a task and those of its subtasks. */
  datatype TaskIdsUsed = TaskIdsUsed(taskId: string, subtaskIds: seq<string>)

  /** The id of a project and those of its tasks. */
  datatype ProjectIdsUsed = ProjectIdsUsed(projectId: string, taskIds: seq<TaskIdsUsed>)

  predicate TaskFits(t: ParsedTask, ids: TaskIdsUsed) {
    |ids.subtaskIds| == |SubtasksOf(t)|
  }

  /** `ids` are the ids of the first |ids| tasks of `ts`. */
  predicate TasksFit(ts: seq<ParsedTask>, ids: seq<TaskIdsUsed>) {
    |ids| <= |ts| && forall k :: 0 <= k < |ids| ==> TaskFits(ts[k], ids[k])
  }

  predicate ProjectFits(p: ParsedProject, ids: ProjectIdsUsed) {
    |ids.taskIds| == |TasksOf(p)| && TasksFit(TasksOf(p), ids.taskIds)
  }

  /** `ids` are the ids of the first |ids| projects of `ps`. */
  predicate ProjectsFit(ps: seq<ParsedProject>, ids: seq<ProjectIdsUsed>) {
    |ids| <= |ps| && forall k :: 0 <= k < |ids| ==> ProjectFits(ps[k], ids[k])
  }

  /** The order generateId is called in: a task's id before those of its subtasks. */
  function TaskOrder(ids: TaskIdsUsed): seq<string> {
    [ids.taskId] + ids.subtaskIds
  }

  function TasksOrder(ids: seq<TaskIdsUsed>): seq<string> {
    if ids == [] then [] else TasksOrder(ids[..|ids| - 1]) + TaskOrder(ids[|ids| - 1])
  }

  /** A project's id before those of its tasks. */
  function ProjectOrder(ids: ProjectIdsUsed): seq<string> {
    [ids.projectId] + TasksOrder(ids.taskIds)
  }

  function ProjectsOrder(ids: seq<ProjectIdsUsed>): seq<string> {
    if ids == [] then [] else ProjectsOrder(ids[..|ids| - 1]) + ProjectOrder(ids[|ids| - 1])
  }

  // ---------------------------------------------------------------------------
  // The rows

  /** A top-level task: description and priority default to "" and 'medium', parentId is "". */
  function TopTask(t: ParsedTask, projectId: string, id: string, now: string): (r: ProjectTask)
    ensures r.id == id && r.projectId == projectId && r.parentId == Some("") && r.title == t.title
    ensures r.description == (if Truthy(t.description) then t.description.value else "")
    ensures r.priority == (if Truthy(t.priority) then t.priority.value else "medium")
    ensures !r.isCompleted && r.dueDate == "" && r.assignee == "" && r.createdAt == now && r.updatedAt == now
  {
    ProjectTask(id, projectId, Some(""), t.title, OrElse(t.description, ""), "", OrElse(t.priority, "medium"), "", false, now, now)
  }

  /** A subtask: linked to its task, always priority 'medium'. */
  function SubTask(s: ParsedSubtask, projectId: string, taskId: string, id: string, now: string): (r: ProjectTask)
    ensures r.id == id && r.projectId == projectId && r.parentId == Some(taskId) && r.title == s.title
    ensures r.description == (if Truthy(s.description) then s.description.value else "")
    ensures r.priority == "medium"
    ensures !r.isCompleted && r.dueDate == "" && r.assignee == "" && r.createdAt == now && r.updatedAt == now
  {
    ProjectTask(id, projectId, Some(taskId), s.title, OrElse(s.description, ""), "", "medium", "", false, now, now)
  }

  /** The rows of the first |ids| subtasks, the k-th taking the k-th id. */
  function SubtaskRows(subs: seq<ParsedSubtask>, projectId: string, taskId: string, ids: seq<string>, now: string)
    : (r: seq<ProjectTask>)
    requires |ids| <= |subs|
    ensures |r| == |ids|
  {
    if ids == [] then []
    else
      var k := |ids| - 1;
      SubtaskRows(subs, projectId, taskId, ids[..k], now) + [SubTask(subs[k], projectId, taskId, ids[k], now)]
  }

  /** A task followed by its subtasks. */
  function TaskRows(t: ParsedTask, projectId: string, ids: TaskIdsUsed, now: string): (r: seq<ProjectTask>)
    requires TaskFits(t, ids)
  {
    [TopTask(t, projectId, ids.taskId, now)] + SubtaskRows(SubtasksOf(t), projectId, ids.taskId, ids.subtaskIds, now)
  }

  /** The rows of the first |ids| tasks of one project, in input order. */
  function TasksRows(ts: seq<ParsedTask>, projectId: string, ids: seq<TaskIdsUsed>, now: string): (r: seq<ProjectTask>)
    requires TasksFit(ts, ids)
  {
    if ids == [] then []
    else
      var k := |ids| - 1;
      TasksRows(ts, projectId, ids[..k], now) + TaskRows(ts[k], projectId, ids[k], now)
  }

  /** The conversion of the first |ids| projects: one project per parsed project, its tasks
      after the tasks of the projects before it. */
  function Convert(ps: seq<ParsedProject>, ids: seq<ProjectIdsUsed>, now: string): (r: Split)
    requires ProjectsFit(ps, ids)
    ensures |r.projects| == |ids|
    ensures forall i :: 0 <= i < |ids| ==> r.projects[i].id == ids[i].projectId && r.projects[i].name == ps[i].name
  {
    if ids == [] then Split([], [])
    else
      var k := |ids| - 1;
      var s := Convert(ps, ids[..k], now);
      Split(s.projects + [Project(ids[k].projectId, ps[k].name, now, now)],
            s.tasks + TasksRows(TasksOf(ps[k]), ids[k].projectId, ids[k].taskIds, now))
  }

  // ---------------------------------------------------------------------------
  // The loops, one method per forEach callback

  /** The subtask forEach of one task. */
  method PushSubtasks(allTasks: seq<ProjectTask>, subs: seq<ParsedSubtask>, projectId: string, taskId: string,
                      gen: IdGenerator, now: string)
    returns (out: seq<ProjectTask>, ghost used: seq<string>)
    modifies gen
    ensures gen.issued == old(gen.issued) + used && |used| == |subs|
    ensures out == allTasks + SubtaskRows(subs, projectId, taskId, used, now)
    ensures Distinct(old(gen.issued)) ==> Distinct(gen.issued)
  {
    out, used := allTasks, [];
    var k := 0;
    while k < |subs|
      invariant 0 <= k <= |subs|
      invariant gen.issued == old(gen.issued) + used && |used| == k
      invariant out == allTasks + SubtaskRows(subs, projectId, taskId, used, now)
      invariant Distinct(old(gen.issued)) ==> Distinct(gen.issued)
    {
      var subtaskId := gen.Generate();
      var row := SubTask(subs[k], projectId, taskId, subtaskId, now);
      assert (used + [subtaskId])[..k] == used;
      Seqs.AppendAssoc(allTasks, SubtaskRows(subs, projectId, taskId, used, now), [row]);
      out := out + [row];
      used := used + [subtaskId];
      k := k + 1;
    }
  }

  /** One turn of the task forEach: the task's row, then its subtasks when `subtasks` is an array. */
  method PushTask(allTasks: seq<ProjectTask>, taskData: ParsedTask, projectId: string, gen: IdGenerator, now: string)
    returns (out: seq<ProjectTask>, ghost used: TaskIdsUsed)
    modifies gen
    ensures gen.issued == old(gen.issued) + TaskOrder(used) && TaskFits(taskData, used)
    ensures out == allTasks + TaskRows(taskData, projectId, used, now)
    ensures Distinct(old(gen.issued)) ==> Distinct(gen.issued)
  {
    var taskId := gen.Generate();
    var row := TopTask(taskData, projectId, taskId, now);
    out := allTasks + [row];
    ghost var subIds: seq<string> := [];
    if taskData.subtasks.Some? {
      out, subIds := PushSubtasks(out, taskData.subtasks.value, projectId, taskId, gen, now);
    }
    used := TaskIdsUsed(taskId, subIds);
    Seqs.AppendAssoc(old(gen.issued), [taskId], subIds);
    Seqs.AppendAssoc(allTasks, [row], SubtaskRows(SubtasksOf(taskData), projectId, taskId, subIds, now));
  }

  /** The tasks before `step` keep their rows and their place in the generator order. */
  lemma TasksSnoc(allTasks: seq<ProjectTask>, out: seq<ProjectTask>, out': seq<ProjectTask>, tasks: seq<ParsedTask>,
                  projectId: string, start: seq<string>, done: seq<TaskIdsUsed>, step: TaskIdsUsed, now: string)
    requires |done| < |tasks| && TasksFit(tasks, done) && TaskFits(tasks[|done|], step)
    requires out == allTasks + TasksRows(tasks, projectId, done, now)
    requires out' == out + TaskRows(tasks[|done|], projectId, step, now)
    ensures TasksFit(tasks, done + [step])
    ensures out' == allTasks + TasksRows(tasks, projectId, done + [step], now)
    ensures (start + TasksOrder(done)) + TaskOrder(step) == start + TasksOrder(done + [step])
  {
    assert (done + [step])[..|done|] == done;
    Seqs.AppendAssoc(allTasks, TasksRows(tasks, projectId, done, now), TaskRows(tasks[|done|], projectId, step, now));
    Seqs.AppendAssoc(start, TasksOrder(done), TaskOrder(step));
  }

  /** One turn of the task forEach, stated against the rows of the tasks before it. */
  method PushTasksStep(allTasks: seq<ProjectTask>, out: seq<ProjectTask>, tasks: seq<ParsedTask>, j: nat, projectId: string,
                       gen: IdGenerator, now: string, ghost start: seq<string>, ghost done: seq<TaskIdsUsed>)
    returns (out': seq<ProjectTask>, ghost done': seq<TaskIdsUsed>)
    requires j == |done| < |tasks| && TasksFit(tasks, done)
    requires gen.issued == start + TasksOrder(done) && out == allTasks + TasksRows(tasks, projectId, done, now)
    modifies gen
    ensures |done'| == |done| + 1 && TasksFit(tasks, done')
    ensures gen.issued == start + TasksOrder(done') && out' == allTasks + TasksRows(tasks, projectId, done', now)
    ensures Distinct(old(gen.issued)) ==> Distinct(gen.issued)
  {
    ghost var step;
    out', step := PushTask(out, tasks[j], projectId, gen, now);
    TasksSnoc(allTasks, out, out', tasks, projectId, start, done, step, now);
    done' := done + [step];
  }

  /** The task forEach of one project. */
  method PushTasks(allTasks: seq<ProjectTask>, tasks: seq<ParsedTask>, projectId: string, gen: IdGenerator, now: string)
    returns (out: seq<ProjectTask>, ghost used: seq<TaskIdsUsed>)
    modifies gen
    ensures |used| == |tasks| && TasksFit(tasks, used)
    ensures gen.issued == old(gen.issued) + TasksOrder(used)
    ensures out == allTasks + TasksRows(tasks, projectId, used, now)
    ensures Distinct(old(gen.issued)) ==> Distinct(gen.issued)
  {
    out, used := allTasks, [];
    var j := 0;
    assert allTasks + [] == allTasks && old(gen.issued) + [] == old(gen.issued);
    while j < |tasks|
      invariant j == |used| && TasksFit(tasks, used)
      invariant gen.issued == old(gen.issued) + TasksOrder(used)
      invariant out == allTasks + TasksRows(tasks, projectId, used, now)
      invariant Distinct(old(gen.issued)) ==> Distinct(gen.issued)
    {
      out, used := PushTasksStep(allTasks, out, tasks, j, projectId, gen, now, old(gen.issued), used);
      j := j + 1;
    }
  }

  /** The projects before `step` keep their rows and their place in the generator order. */
  lemma ProjectsSnoc(ps: seq<ParsedProject>, start: seq<string>, done: seq<ProjectIdsUsed>, step: ProjectIdsUsed, now: string)
    requires |done| < |ps| && ProjectsFit(ps, done) && ProjectFits(ps[|done|], step)
    ensures ProjectsFit(ps, done + [step])
    ensures Convert(ps, done + [step], now)
         == Split(Convert(ps, done, now).projects + [Project(step.projectId, ps[|done|].name, now, now)],
                  Convert(ps, done, now).tasks + TasksRows(TasksOf(ps[|done|]), step.projectId, step.taskIds, now))
    ensures (start + ProjectsOrder(done)) + ([step.projectId] + TasksOrder(step.taskIds)) == start + ProjectsOrder(done + [step])
  {
    assert (done + [step])[..|done|] == done;
    Seqs.AppendAssoc(start, ProjectsOrder(done), ProjectOrder(step));
  }

  /** One turn of the project forEach: the project's id is asked for before those of its tasks. */
  method PushProject(projects: seq<Project>, allTasks: seq<ProjectTask>, ps: seq<ParsedProject>, i: nat,
                     gen: IdGenerator, now: string, ghost start: seq<string>, ghost done: seq<ProjectIdsUsed>)
    returns (projects': seq<Project>, allTasks': seq<ProjectTask>, ghost done': seq<ProjectIdsUsed>)
    requires i == |done| < |ps| && ProjectsFit(ps, done)
    requires gen.issued == start + ProjectsOrder(done) && Split(projects, allTasks) == Convert(ps, done, now)
    modifies gen
    ensures |done'| == |done| + 1 && ProjectsFit(ps, done')
    ensures gen.issued == start + ProjectsOrder(done') && Split(projects', allTasks') == Convert(ps, done', now)
    ensures Distinct(old(gen.issued)) ==> Distinct(gen.issued)
  {
    var projectData := ps[i];
    var projectId := gen.Generate();
    projects' := projects + [Project(projectId, projectData.name, now, now)];
    ghost var taskIds: seq<TaskIdsUsed> := [];
    allTasks' := allTasks;
    if projectData.tasks.Some? {
      allTasks', taskIds := PushTasks(allTasks, projectData.tasks.value, projectId, gen, now);
    } else {
      assert allTasks + [] == allTasks && gen.issued + [] == gen.issued;
    }
    ghost var step := ProjectIdsUsed(projectId, taskIds);
    ProjectsSnoc(ps, start, done, step, now);
    Seqs.AppendAssoc(start + ProjectsOrder(done), [projectId], TasksOrder(taskIds));
    done' := done + [step];
  }

  /** The project forEach. */
  method PushProjects(ps: seq<ParsedProject>, gen: IdGenerator, now: string)
    returns (split: Split, ghost used: seq<ProjectIdsUsed>)
    modifies gen
    ensures |used| == |ps| && ProjectsFit(ps, used)
    ensures gen.issued == old(gen.issued) + ProjectsOrder(used)
    ensures split == Convert(ps, used, now)
    ensures Distinct(old(gen.issued)) ==> Distinct(gen.issued)
  {
    used := [];
    var projects: seq<Project> := [];
    var allTasks: seq<ProjectTask> := [];
    var i := 0;
    assert old(gen.issued) + [] == old(gen.issued);
    while i < |ps|
      invariant i == |used| && ProjectsFit(ps, used)
      invariant gen.issued == old(gen.issued) + ProjectsOrder(used)
      invariant Split(projects, allTasks) == Convert(ps, used, now)
      invariant Distinct(old(gen.issued)) ==> Distinct(gen.issued)
    {
      projects, allTasks, used := PushProject(projects, allTasks, ps, i, gen, now, old(gen.issued), used);
      i := i + 1;
    }
    split := Split(projects, allTasks);
  }

  /** The first guard of handleSplitProjects: a blank description is refused before the AI
      is asked anything. */
  function AcceptsInput(inputText: string): (ok: bool)
    ensures ok <==> !AllWhitespace(inputText)
  {
    TrimEmptyIffBlank(inputText);
    Trim(inputText) != ""
  }

  /** handleSplitProjects after parsing: abort when `projects` is missing or not an array. */
  method SplitProjects(parsed: Option<seq<ParsedProject>>, gen: IdGenerator, now: string)
    returns (result: Option<Split>, ghost used: seq<ProjectIdsUsed>)
    modifies gen
    ensures gen.issued == old(gen.issued) + ProjectsOrder(used)
    ensures parsed.None? ==> result.None? && used == []
    ensures parsed.Some? ==> |used| == |parsed.value| && ProjectsFit(parsed.value, used)
                             && result == Some(Convert(parsed.value, used, now))
    ensures Distinct(old(gen.issued)) ==> Distinct(gen.issued)
  {
    if parsed.None? {
      assert old(gen.issued) + [] == gen.issued;
      return None, [];
    }
    var split;
    split, used := PushProjects(parsed.value, gen, now);
    result := Some(split);
  }

  // ---------------------------------------------------------------------------
  // Properties

  /** Row k carries the k-th id of `ids`. */
  predicate CarriesIds(rows: seq<ProjectTask>, ids: seq<string>) {
    |rows| == |ids| && forall k :: 0 <= k < |rows| ==> rows[k].id == ids[k]
  }

  predicate DistinctIds(rows: seq<ProjectTask>) {
    forall i, j :: 0 <= i < j < |rows| ==> rows[i].id != rows[j].id
  }

  /** Incomplete, unassigned, undated tasks of the project, each with a parent link. */
  predicate HaveDefaults(rows: seq<ProjectTask>, projectId: string) {
    forall k :: 0 <= k < |rows| ==>
      rows[k].projectId == projectId && !rows[k].isCompleted && rows[k].dueDate == ""
      && rows[k].assignee == "" && rows[k].parentId.Some?
  }

  /** A row whose parent id is not "" is a 'medium' subtask whose task is an earlier top-level row. */
  predicate SubtasksAfterTheirTask(rows: seq<ProjectTask>) {
    forall j :: 0 <= j < |rows| && rows[j].parentId != Some("") ==>
      rows[j].priority == "medium" &&
      exists i :: 0 <= i < j && rows[i].parentId == Some("") && Some(rows[i].id) == rows[j].parentId
  }

  /** The k-th subtask row is built from the k-th subtask and the k-th id. */
  lemma {:induction false} SubtaskRowsAt(subs: seq<ParsedSubtask>, projectId: string, taskId: string, ids: seq<string>, now: string)
    requires |ids| <= |subs|
    ensures forall m :: 0 <= m < |ids| ==>
              SubtaskRows(subs, projectId, taskId, ids, now)[m] == SubTask(subs[m], projectId, taskId, ids[m], now)
    decreases |ids|
  {
    if ids != [] {
      var k := |ids| - 1;
      SubtaskRowsAt(subs, projectId, taskId, ids[..k], now);
      var init := SubtaskRows(subs, projectId, taskId, ids[..k], now);
      var rows := init + [SubTask(subs[k], projectId, taskId, ids[k], now)];
      forall m | 0 <= m < k ensures rows[m] == SubTask(subs[m], projectId, taskId, ids[m], now) {
        assert rows[m] == init[m] && ids[..k][m] == ids[m];
      }
    }
  }

  /** A task's row comes first, then one row per subtask, linked to it. */
  lemma TaskRowsAt(t: ParsedTask, projectId: string, ids: TaskIdsUsed, now: string)
    requires TaskFits(t, ids)
    ensures |TaskRows(t, projectId, ids, now)| == 1 + |ids.subtaskIds|
    ensures TaskRows(t, projectId, ids, now)[0] == TopTask(t, projectId, ids.taskId, now)
    ensures forall m :: 1 <= m <= |ids.subtaskIds| ==>
              TaskRows(t, projectId, ids, now)[m] == SubTask(SubtasksOf(t)[m - 1], projectId, ids.taskId, ids.subtaskIds[m - 1], now)
  {
    var subs := SubtasksOf(t);
    SubtaskRowsAt(subs, projectId, ids.taskId, ids.subtaskIds, now);
    var rows := TaskRows(t, projectId, ids, now);
    forall m | 1 <= m <= |ids.subtaskIds|
      ensures rows[m] == SubTask(subs[m - 1], projectId, ids.taskId, ids.subtaskIds[m - 1], now)
    {
      assert rows[m] == SubtaskRows(subs, projectId, ids.taskId, ids.subtaskIds, now)[m - 1];
    }
  }

  /** A task's own row takes the id asked for first, its subtasks the following ones. */
  lemma TaskRowIds(t: ParsedTask, projectId: string, ids: TaskIdsUsed, now: string)
    requires TaskFits(t, ids)
    ensures CarriesIds(TaskRows(t, projectId, ids, now), TaskOrder(ids))
  {
    TaskRowsAt(t, projectId, ids, now);
  }

  /** The rows of a project carry the ids of its tasks in the order they were asked for. */
  lemma {:induction false} TasksRowIds(ts: seq<ParsedTask>, projectId: string, ids: seq<TaskIdsUsed>, now: string)
    requires TasksFit(ts, ids)
    ensures CarriesIds(TasksRows(ts, projectId, ids, now), TasksOrder(ids))
    decreases |ids|
  {
    if ids != [] {
      var k := |ids| - 1;
      assert TasksFit(ts, ids[..k]) by {
        forall m | 0 <= m < k ensures TaskFits(ts[m], ids[..k][m]) {
          assert ids[..k][m] == ids[m];
        }
      }
      TasksRowIds(ts, projectId, ids[..k], now);
      TaskRowIds(ts[k], projectId, ids[k], now);
      var head := TasksRows(ts, projectId, ids[..k], now);
      var last := TaskRows(ts[k], projectId, ids[k], now);
      var o1 := TasksOrder(ids[..k]);
      var o2 := TaskOrder(ids[k]);
      CarriesAppend(head, last, o1, o2);
    }
  }

  lemma CarriesAppend(a: seq<ProjectTask>, b: seq<ProjectTask>, x: seq<string>, y: seq<string>)
    requires CarriesIds(a, x) && CarriesIds(b, y)
    ensures CarriesIds(a + b, x + y)
  {
    forall k | 0 <= k < |a| + |b| ensures (a + b)[k].id == (x + y)[k] {
      if k < |a| {
        assert (a + b)[k] == a[k] && (x + y)[k] == x[k];
      } else {
        assert (a + b)[k] == b[k - |a|] && (x + y)[k] == y[k - |a|];
      }
    }
  }

  /** With ids the generator never repeated, no two rows of a project share an id. */
  lemma RowIdsDistinct(ts: seq<ParsedTask>, projectId: string, ids: seq<TaskIdsUsed>, now: string)
    requires TasksFit(ts, ids) && Distinct(TasksOrder(ids))
    ensures DistinctIds(TasksRows(ts, projectId, ids, now))
  {
    TasksRowIds(ts, projectId, ids, now);
    DistinctIffPairwise(TasksOrder(ids));
  }

  lemma TaskRowDefaults(t: ParsedTask, projectId: string, ids: TaskIdsUsed, now: string)
    requires TaskFits(t, ids)
    ensures HaveDefaults(TaskRows(t, projectId, ids, now), projectId)
    ensures SubtasksAfterTheirTask(TaskRows(t, projectId, ids, now))
  {
    TaskRowsAt(t, projectId, ids, now);
    var rows := TaskRows(t, projectId, ids, now);
    assert rows[0].parentId == Some("");
  }

  /** Both properties survive putting the rows of two groups one after the other. */
  lemma DefaultsAppend(a: seq<ProjectTask>, b: seq<ProjectTask>, projectId: string)
    requires HaveDefaults(a, projectId) && HaveDefaults(b, projectId)
    requires SubtasksAfterTheirTask(a) && SubtasksAfterTheirTask(b)
    ensures HaveDefaults(a + b, projectId) && SubtasksAfterTheirTask(a + b)
  {
    var rows := a + b;
    forall k | 0 <= k < |rows|
      ensures rows[k].projectId == projectId && !rows[k].isCompleted && rows[k].dueDate == ""
              && rows[k].assignee == "" && rows[k].parentId.Some?
    {
      if k < |a| {
        assert rows[k] == a[k];
      } else {
        assert rows[k] == b[k - |a|];
      }
    }
    forall k | 0 <= k < |rows| && rows[k].parentId != Some("")
      ensures rows[k].priority == "medium"
      ensures exists i :: 0 <= i < k && rows[i].parentId == Some("") && Some(rows[i].id) == rows[k].parentId
    {
      if k < |a| {
        assert rows[k] == a[k];
        var i :| 0 <= i < k && a[i].parentId == Some("") && Some(a[i].id) == a[k].parentId;
        assert rows[i] == a[i];
      } else {
        var m := k - |a|;
        assert rows[k] == b[m];
        var i :| 0 <= i < m && b[i].parentId == Some("") && Some(b[i].id) == b[m].parentId;
        assert rows[|a| + i] == b[i];
      }
    }
  }

  /** Every row of a project gets the source's defaults, and every subtask follows the row of
      its task. */
  lemma {:induction false} RowsHaveDefaults(ts: seq<ParsedTask>, projectId: string, ids: seq<TaskIdsUsed>, now: string)
    requires TasksFit(ts, ids)
    ensures HaveDefaults(TasksRows(ts, projectId, ids, now), projectId)
    ensures SubtasksAfterTheirTask(TasksRows(ts, projectId, ids, now))
    decreases |ids|
  {
    if ids != [] {
      var k := |ids| - 1;
      assert TasksFit(ts, ids[..k]) by {
        forall m | 0 <= m < k ensures TaskFits(ts[m], ids[..k][m]) {
          assert ids[..k][m] == ids[m];
        }
      }
      RowsHaveDefaults(ts, projectId, ids[..k], now);
      TaskRowDefaults(ts[k], projectId, ids[k], now);
      DefaultsAppend(TasksRows(ts, projectId, ids[..k], now), TaskRows(ts[k], projectId, ids[k], now), projectId);
    }
  }

  /** The ids of the projects, in order. */
  function ProjectIdsOf(ids: seq<ProjectIdsUsed>): (r: seq<string>)
    ensures |r| == |ids| && forall i :: 0 <= i < |ids| ==> r[i] == ids[i].projectId
  {
    if ids == [] then []
    else
      var k := |ids| - 1;
      var init := ProjectIdsOf(ids[..k]);
      assert forall i :: 0 <= i < k ==> ids[..k][i] == ids[i];
      init + [ids[k].projectId]
  }

  /** The ids of the task rows, project after project. */
  function TaskRowIdsOf(ids: seq<ProjectIdsUsed>): seq<string> {
    if ids == [] then [] else TaskRowIdsOf(ids[..|ids| - 1]) + TasksOrder(ids[|ids| - 1].taskIds)
  }

  /** The i-th project carries the i-th parsed name and the id asked for when its turn came;
      the task rows carry the remaining ids, project after project. */
  lemma {:induction false} ConvertIds(ps: seq<ParsedProject>, ids: seq<ProjectIdsUsed>, now: string)
    requires ProjectsFit(ps, ids)
    ensures |Convert(ps, ids, now).projects| == |ids|
    ensures forall i :: 0 <= i < |ids| ==> Convert(ps, ids, now).projects[i] == Project(ids[i].projectId, ps[i].name, now, now)
    ensures CarriesIds(Convert(ps, ids, now).tasks, TaskRowIdsOf(ids))
    decreases |ids|
  {
    if ids != [] {
      var k := |ids| - 1;
      assert ProjectsFit(ps, ids[..k]) by {
        forall m | 0 <= m < k ensures ProjectFits(ps[m], ids[..k][m]) {
          assert ids[..k][m] == ids[m];
        }
      }
      ConvertIds(ps, ids[..k], now);
      var prev := Convert(ps, ids[..k], now);
      var last := Project(ids[k].projectId, ps[k].name, now, now);
      forall i | 0 <= i < |ids| ensures (prev.projects + [last])[i] == Project(ids[i].projectId, ps[i].name, now, now) {
        if i < k {
          assert (prev.projects + [last])[i] == prev.projects[i] && ids[..k][i] == ids[i];
        }
      }
      TasksRowIds(TasksOf(ps[k]), ids[k].projectId, ids[k].taskIds, now);
      CarriesAppend(prev.tasks, TasksRows(TasksOf(ps[k]), ids[k].projectId, ids[k].taskIds, now),
                    TaskRowIdsOf(ids[..k]), TasksOrder(ids[k].taskIds));
    }
  }

  /** The generator order holds the project ids and the task row ids, each exactly once. */
  lemma {:induction false} OrderIsProjectsAndTasks(ids: seq<ProjectIdsUsed>)
    ensures multiset(ProjectsOrder(ids)) == multiset(ProjectIdsOf(ids)) + multiset(TaskRowIdsOf(ids))
    decreases |ids|
  {
    if ids != [] {
      var k := |ids| - 1;
      OrderIsProjectsAndTasks(ids[..k]);
      assert ProjectIdsOf(ids) == ProjectIdsOf(ids[..k]) + [ids[k].projectId];
    }
  }

  /** A generator that never repeats an id gives every project and every task row an id of
      its own. */
  lemma SplitIdsDistinct(ps: seq<ParsedProject>, ids: seq<ProjectIdsUsed>, now: string)
    requires ProjectsFit(ps, ids) && Distinct(ProjectsOrder(ids))
    ensures var s := Convert(ps, ids, now);
            DistinctIds(s.tasks)
            && (forall i, j :: 0 <= i < j < |s.projects| ==> s.projects[i].id != s.projects[j].id)
            && (forall i, k :: 0 <= i < |s.projects| && 0 <= k < |s.tasks| ==> s.projects[i].id != s.tasks[k].id)
  {
    var s := Convert(ps, ids, now);
    var pids := ProjectIdsOf(ids);
    var tids := TaskRowIdsOf(ids);
    ConvertIds(ps, ids, now);
    OrderIsProjectsAndTasks(ids);
    DistinctIffAtMostOnce(ProjectsOrder(ids));
    DistinctIffAtMostOnce(pids + tids);
    assert multiset(pids + tids) == multiset(pids) + multiset(tids);
    DistinctAppend(pids, tids);
    DistinctIffPairwise(pids);
    DistinctIffPairwise(tids);
    forall i, k | 0 <= i < |s.projects| && 0 <= k < |s.tasks| ensures s.projects[i].id != s.tasks[k].id {
      assert s.projects[i].id == pids[i] && pids[i] in pids;
      assert s.tasks[k].id == tids[k] && tids[k] in tids;
    }
  }

  /** The number of task rows the first n parsed tasks produce: one each and one per subtask. */
  function TasksRowCount(ts: seq<ParsedTask>, n: nat): nat
    requires n <= |ts|
  {
    if n == 0 then 0 else TasksRowCount(ts, n - 1) + 1 + |SubtasksOf(ts[n - 1])|
  }

  function ProjectsRowCount(ps: seq<ParsedProject>, n: nat): nat
    requires n <= |ps|
  {
    if n == 0 then 0 else ProjectsRowCount(ps, n - 1) + TasksRowCount(TasksOf(ps[n - 1]), |TasksOf(ps[n - 1])|)
  }

  lemma {:induction false} TasksOrderLength(ts: seq<ParsedTask>, ids: seq<TaskIdsUsed>)
    requires TasksFit(ts, ids)
    ensures |TasksOrder(ids)| == TasksRowCount(ts, |ids|)
    decreases |ids|
  {
    if ids != [] {
      var k := |ids| - 1;
      assert TasksFit(ts, ids[..k]) by {
        forall m | 0 <= m < k ensures TaskFits(ts[m], ids[..k][m]) {
          assert ids[..k][m] == ids[m];
        }
      }
      TasksOrderLength(ts, ids[..k]);
    }
  }

  /** One project per parsed project and one task row per parsed task and subtask. */
  lemma {:induction false} SplitCounts(ps: seq<ParsedProject>, ids: seq<ProjectIdsUsed>, now: string)
    requires ProjectsFit(ps, ids)
    ensures |Convert(ps, ids, now).projects| == |ids|
    ensures |Convert(ps, ids, now).tasks| == ProjectsRowCount(ps, |ids|)
    decreases |ids|
  {
    if ids != [] {
      var k := |ids| - 1;
      assert ProjectsFit(ps, ids[..k]) by {
        forall m | 0 <= m < k ensures ProjectFits(ps[m], ids[..k][m]) {
          assert ids[..k][m] == ids[m];
        }
      }
      SplitCounts(ps, ids[..k], now);
      TasksRowIds(TasksOf(ps[k]), ids[k].projectId, ids[k].taskIds, now);
      TasksOrderLength(TasksOf(ps[k]), ids[k].taskIds);
    }
  }
}
