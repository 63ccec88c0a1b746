/** The task tree view (ai-notebook/components/project-task-list.tsx): root and child
    selection, the expand set, the create guards and the two-level rendering. */
module ProjectTaskList {
  import opened Wrappers
  import opened Text
  import opened ProjectTypes
  import Seqs
  import ProjectManager

  /** `tasks.filter(task => !task.parentId)`: a null or empty parent id makes a root. */
  function RootTasks(tasks: seq<ProjectTask>): (r: seq<ProjectTask>)
    ensures forall t :: t in r <==> t in tasks && !Truthy(t.parentId)
    ensures Seqs.IsSubseq(r, tasks)
  {
    Seqs.FilterIsSubseq((t: ProjectTask) => !Truthy(t.parentId), tasks);
    Seqs.Filter((t: ProjectTask) => !Truthy(t.parentId), tasks)
  }

  /** getChildTasks(parentId) */
  function ChildTasks(tasks: seq<ProjectTask>, parentId: string): (r: seq<ProjectTask>)
    ensures forall t :: t in r <==> t in tasks && t.parentId == Some(parentId)
    ensures Seqs.IsSubseq(r, tasks)
  {
    Seqs.FilterIsSubseq((t: ProjectTask) => t.parentId == Some(parentId), tasks);
    Seqs.Filter((t: ProjectTask) => t.parentId == Some(parentId), tasks)
  }

  /** A task is never both a root and the child of a task with a non-empty id. */
  lemma RootsAreNoChildren(tasks: seq<ProjectTask>, parentId: string, t: ProjectTask)
    requires parentId != ""
    ensures !(t in RootTasks(tasks) && t in ChildTasks(tasks, parentId))
  {
  }

  /** handleToggleExpand: the copied set with `id` removed if present, added otherwise. */
  function ToggleExpand(expanded: set<string>, id: string): (r: set<string>)
    ensures id in r <==> id !in expanded
    ensures forall x :: x != id ==> (x in r <==> x in expanded)
  {
    if id in expanded then expanded - {id} else expanded + {id}
  }

  /** Toggling the same task twice restores the expand set. */
  lemma ToggleTwiceRestores(expanded: set<string>, id: string)
    ensures ToggleExpand(ToggleExpand(expanded, id), id) == expanded
  {
    var r := ToggleExpand(ToggleExpand(expanded, id), id);
    assert forall x :: x in r <==> x in expanded;
  }

  /** TaskItem's handleToggleComplete: the task with isCompleted flipped. */
  function ToggleComplete(task: ProjectTask): (r: ProjectTask)
    ensures r.isCompleted == !task.isCompleted
    ensures r.(isCompleted := task.isCompleted) == task
  {
    task.(isCompleted := !task.isCompleted)
  }

  /** Completing twice is the identity. */
  lemma ToggleCompleteInvolutive(task: ProjectTask)
    ensures ToggleComplete(ToggleComplete(task)) == task
  {
  }

  /** A call onCreateTask(title, parentId?) or none. */
  datatype CreateCall = NoCall | OnCreateTask(title: string, parentId: Option<string>)

  /** ProjectTaskList's handleCreateTask: a trimmed root task, nothing for a blank title. */
  function CreateRootTask(title: string): (c: CreateCall)
    ensures c.NoCall? <==> AllWhitespace(title)
    ensures c.OnCreateTask? ==> c.title == Trim(title) && c.title != "" && c.parentId.None?
  {
    TrimEmptyIffBlank(title);
    if Trim(title) == "" then NoCall else OnCreateTask(Trim(title), None)
  }

  /** TaskItem's handleCreateSubtask: a trimmed task under `task`, nothing for a blank title. */
  function CreateSubtask(task: ProjectTask, title: string): (c: CreateCall)
    ensures c.NoCall? <==> AllWhitespace(title)
    ensures c.OnCreateTask? ==> c.title == Trim(title) && c.title != "" && c.parentId == Some(task.id)
  {
    TrimEmptyIffBlank(title);
    if Trim(title) == "" then NoCall else OnCreateTask(Trim(title), Some(task.id))
  }

  /** A subtask created through the project view lands among the children of its parent task. */
  lemma SubtaskBecomesChild(tasks: seq<ProjectTask>, selected: Option<string>, task: ProjectTask, title: string,
                            id: string, now: string)
    requires Truthy(selected) && task.id != "" && !AllWhitespace(title)
    ensures var c := CreateSubtask(task, title);
            var t := ProjectManager.NewTask(selected.value, c.title, c.parentId, id, now);
            ChildTasks(ProjectManager.CreateTask(tasks, selected, c.title, c.parentId, id, now).value, task.id)
              == ChildTasks(tasks, task.id) + [t]
  {
    var c := CreateSubtask(task, title);
    var t := ProjectManager.NewTask(selected.value, c.title, c.parentId, id, now);
    Seqs.FilterAppend((x: ProjectTask) => x.parentId == Some(task.id), tasks, [t]);
    assert Seqs.Filter((x: ProjectTask) => x.parentId == Some(task.id), [t]) == [t] by {
      assert [t][1..] == [];
    }
  }

  /** getPriorityText: 高, 中, 低, and 中 for anything else. */
  function PriorityText(priority: string): (text: string)
    ensures priority == "high" ==> text == "高"
    ensures priority == "low" ==> text == "低"
    ensures priority != "high" && priority != "low" ==> text == "中"
  {
    match priority
    case "high" => "高"
    case "medium" => "中"
    case "low" => "低"
    case _ => "中"
  }

  /** A rendered row: a task and its indentation level. */
  datatype Row = Row(task: ProjectTask, level: nat)

  /** The rows one TaskItem renders: itself, then, when expanded, each child at the next
      level with an empty childTasks list, so nothing below. */
  function ItemRows(task: ProjectTask, level: nat, childTasks: seq<ProjectTask>, expanded: set<string>): (r: seq<Row>)
    ensures |r| >= 1 && r[0] == Row(task, level)
    ensures task.id !in expanded ==> r == [Row(task, level)]
    ensures task.id in expanded ==> |r| == 1 + |childTasks|
    ensures forall i :: 1 <= i < |r| ==> r[i] == Row(childTasks[i - 1], level + 1)
  {
    [Row(task, level)]
    + (if task.id in expanded then seq(|childTasks|, i requires 0 <= i < |childTasks| => Row(childTasks[i], level + 1)) else [])
  }

  /** The rows of the whole list, root items at level 0 with their children. */
  function ListRows(roots: seq<ProjectTask>, tasks: seq<ProjectTask>, expanded: set<string>): (r: seq<Row>)
    ensures |r| >= |roots|
    ensures forall row :: row in r ==> row.level <= 1
    ensures forall row :: row in r && row.level == 0 ==> row.task in roots
    ensures forall row :: row in r && row.level == 1 ==>
              exists p :: p in roots && p.id in expanded && row.task in ChildTasks(tasks, p.id)
  {
    if roots == [] then []
    else
      var item := ItemRows(roots[0], 0, ChildTasks(tasks, roots[0].id), expanded);
      var rest := ListRows(roots[1..], tasks, expanded);
      assert forall row :: row in item && row.level == 1 ==> row.task in ChildTasks(tasks, roots[0].id) && roots[0].id in expanded;
      item + rest
  }

  /** What ProjectTaskList shows: only two levels, roots first-level, expanded roots' children
      second-level. */
  function VisibleRows(tasks: seq<ProjectTask>, expanded: set<string>): (r: seq<Row>)
    ensures forall row :: row in r ==> row.level <= 1
    ensures forall row :: row in r && row.level == 0 ==> row.task in tasks && !Truthy(row.task.parentId)
  {
    ListRows(RootTasks(tasks), tasks, expanded)
  }

  /** A task whose parent is not a root is never shown, even when every task is expanded. */
  lemma GrandchildrenHidden(tasks: seq<ProjectTask>, expanded: set<string>, g: ProjectTask)
    requires Truthy(g.parentId)
    requires forall p :: p in tasks && p.id == g.parentId.value ==> Truthy(p.parentId)
    ensures forall row :: row in VisibleRows(tasks, expanded) ==> row.task != g
  {
    forall row | row in VisibleRows(tasks, expanded) ensures row.task != g {
      if row.level == 1 {
        var p :| p in RootTasks(tasks) && p.id in expanded && row.task in ChildTasks(tasks, p.id);
        assert p in tasks && !Truthy(p.parentId);
        assert row.task.parentId == Some(p.id);
      }
    }
  }
}
