/** The project view's list handlers (ai-notebook/components/project-manager.tsx). Each
    handler returns the list it hands to its callback; ids and timestamps are parameters. */
module ProjectManager {
  import opened Wrappers
  import opened Text
  import opened ProjectTypes
  import Seqs

  // ---------------------------------------------------------------------------
  // Selection and projects

  /** The initial selectedProjectId: the first project's id, or null. */
  function InitialSelection(projects: seq<Project>): (sel: Option<string>)
    ensures sel.Some? <==> |projects| > 0
    ensures sel.Some? ==> sel.value == projects[0].id
  {
    if |projects| > 0 then Some(projects[0].id) else None
  }

  /** `tasks.filter(t => t.projectId === selectedProjectId)` */
  function ProjectTasks(tasks: seq<ProjectTask>, selected: Option<string>): (r: seq<ProjectTask>)
    ensures forall t :: t in r <==> t in tasks && selected == Some(t.projectId)
    ensures Seqs.IsSubseq(r, tasks)
    ensures selected.None? ==> r == []
  {
    Seqs.FilterIsSubseq((t: ProjectTask) => selected == Some(t.projectId), tasks);
    Seqs.Filter((t: ProjectTask) => selected == Some(t.projectId), tasks)
  }

  /** handleCreateProject: the new project goes last and becomes the selection. */
  function CreateProject(projects: seq<Project>, name: string, id: string, now: string): (r: (seq<Project>, Option<string>))
    ensures |r.0| == |projects| + 1 && r.0[..|projects|] == projects
    ensures r.0[|projects|] == Project(id, name, now, now)
    ensures r.1 == Some(id)
  {
    (projects + [Project(id, name, now, now)], Some(id))
  }

  /** A freshly created project is selected and, when its id is new, shows no tasks. */
  lemma CreatedProjectShowsNoTasks(projects: seq<Project>, tasks: seq<ProjectTask>, name: string, id: string, now: string)
    requires forall t :: t in tasks ==> t.projectId != id
    ensures var r := CreateProject(projects, name, id, now);
            ProjectTasks(tasks, r.1) == [] && r.1 == Some(r.0[|r.0| - 1].id)
  {
  }

  /** handleUpdateProject: renames the projects with that id and stamps them; all others stay. */
  function UpdateProject(projects: seq<Project>, projectId: string, name: string, now: string): (r: seq<Project>)
    ensures |r| == |projects| && ProjectIds(r) == ProjectIds(projects)
    ensures forall i :: 0 <= i < |projects| && projects[i].id == projectId ==>
              r[i] == projects[i].(name := name, updatedAt := now)
    ensures forall i :: 0 <= i < |projects| && projects[i].id != projectId ==> r[i] == projects[i]
  {
    Seqs.MapWhere(projects, (p: Project) => p.id == projectId, (p: Project) => p.(name := name, updatedAt := now))
  }

  /** handleAIProjectsCreated: both lists extended, the first new project selected if any. */
  function AIProjectsCreated(projects: seq<Project>, tasks: seq<ProjectTask>, selected: Option<string>,
                             newProjects: seq<Project>, newTasks: seq<ProjectTask>)
    : (r: (seq<Project>, seq<ProjectTask>, Option<string>))
    ensures r.0 == projects + newProjects && r.1 == tasks + newTasks
    ensures r.2 == if |newProjects| > 0 then Some(newProjects[0].id) else selected
  {
    (projects + newProjects, tasks + newTasks, if |newProjects| > 0 then Some(newProjects[0].id) else selected)
  }

  /** After an AI import the selected project shows exactly its imported tasks when its id is new. */
  lemma ImportedProjectShowsItsTasks(projects: seq<Project>, tasks: seq<ProjectTask>, selected: Option<string>,
                                     newProjects: seq<Project>, newTasks: seq<ProjectTask>)
    requires |newProjects| > 0
    requires forall t :: t in tasks ==> t.projectId != newProjects[0].id
    ensures var r := AIProjectsCreated(projects, tasks, selected, newProjects, newTasks);
            ProjectTasks(r.1, r.2) == ProjectTasks(newTasks, Some(newProjects[0].id))
  {
    var sel := Some(newProjects[0].id);
    Seqs.FilterAppend((t: ProjectTask) => sel == Some(t.projectId), tasks, newTasks);
    var old_ := ProjectTasks(tasks, sel);
    if old_ != [] {
      assert old_[0] in tasks;
    }
  }

  // ---------------------------------------------------------------------------
  // Creating and updating tasks

  /** The task handleCreateTask builds; an empty parent id is stored as null. */
  function NewTask(projectId: string, title: string, parentId: Option<string>, id: string, now: string): (t: ProjectTask)
    ensures t.id == id && t.projectId == projectId && t.title == title
    ensures t.parentId == if Truthy(parentId) then parentId else None
    ensures t.description == "" && t.dueDate == "" && t.assignee == ""
    ensures t.priority == "medium" && !t.isCompleted
    ensures t.createdAt == now && t.updatedAt == now
  {
    ProjectTask(id, projectId, if Truthy(parentId) then parentId else None, title, "", "", "medium", "", false, now, now)
  }

  /** handleCreateTask: no call of onUpdateTasks without a selected project, else the list
      with one new task at the end. */
  function CreateTask(tasks: seq<ProjectTask>, selected: Option<string>, title: string, parentId: Option<string>,
                      id: string, now: string): (r: Option<seq<ProjectTask>>)
    ensures r.None? <==> !Truthy(selected)
    ensures r.Some? ==> |r.value| == |tasks| + 1 && r.value[..|tasks|] == tasks
    ensures r.Some? ==> r.value[|tasks|] == NewTask(selected.value, title, parentId, id, now)
  {
    if !Truthy(selected) then None else Some(tasks + [NewTask(selected.value, title, parentId, id, now)])
  }

  /** A created task joins the selected project's view, last. */
  lemma CreatedTaskShownLast(tasks: seq<ProjectTask>, selected: Option<string>, title: string, parentId: Option<string>,
                             id: string, now: string)
    requires Truthy(selected)
    ensures ProjectTasks(CreateTask(tasks, selected, title, parentId, id, now).value, selected)
         == ProjectTasks(tasks, selected) + [NewTask(selected.value, title, parentId, id, now)]
  {
    var t := NewTask(selected.value, title, parentId, id, now);
    Seqs.FilterAppend((x: ProjectTask) => selected == Some(x.projectId), tasks, [t]);
    assert Seqs.Filter((x: ProjectTask) => selected == Some(x.projectId), [t]) == [t] by {
      assert [t][1..] == [];
    }
  }

  /** handleUpdateTask: every task with the same id becomes the edited task, stamped `now`. */
  function UpdateTask(tasks: seq<ProjectTask>, updated: ProjectTask, now: string): (r: seq<ProjectTask>)
    ensures |r| == |tasks| && TaskIds(r) == TaskIds(tasks)
    ensures forall i :: 0 <= i < |tasks| && tasks[i].id == updated.id ==> r[i] == updated.(updatedAt := now)
    ensures forall i :: 0 <= i < |tasks| && tasks[i].id != updated.id ==> r[i] == tasks[i]
  {
    Seqs.MapWhere(tasks, (t: ProjectTask) => t.id == updated.id, (t: ProjectTask) => updated.(updatedAt := now))
  }

  /** Saving the same edit twice is saving it once; an edit of an unknown id changes nothing. */
  lemma UpdateTaskLaws(tasks: seq<ProjectTask>, updated: ProjectTask, now: string)
    ensures UpdateTask(UpdateTask(tasks, updated, now), updated, now) == UpdateTask(tasks, updated, now)
    ensures (forall t :: t in tasks ==> t.id != updated.id) ==> UpdateTask(tasks, updated, now) == tasks
  {
  }

  // ---------------------------------------------------------------------------
  // Cascade deletion

  /** `t.parentId` is `root` or one of `ids`. */
  predicate ParentIn(t: ProjectTask, root: string, ids: seq<string>) {
    t.parentId.Some? && (t.parentId.value == root || t.parentId.value in ids)
  }

  /** Every parent link that starts at or below the rank of `root` strictly decreases `rank`,
      so the links reached from `root` form no cycle. Links elsewhere in the list are free. */
  ghost predicate RankedBelow(tasks: seq<ProjectTask>, root: string, rank: string -> nat) {
    forall t :: t in tasks && t.parentId.Some? && rank(t.parentId.value) <= rank(root) ==>
      rank(t.id) < rank(t.parentId.value)
  }

  /** Every task whose parent is `root` or in `ids` has its id in `ids`. */
  predicate ClosedUnder(tasks: seq<ProjectTask>, root: string, ids: seq<string>) {
    forall t :: t in tasks && ParentIn(t, root, ids) ==> t.id in ids
  }

  /** Every task whose parent is in `ids` has its id in `ids`. */
  predicate ClosedBelow(tasks: seq<ProjectTask>, ids: seq<string>) {
    forall t :: t in tasks && t.parentId.Some? && t.parentId.value in ids ==> t.id in ids
  }

  /** `x` is the id of a task whose parent is `root` or in `ids`. */
  predicate HasParentIn(tasks: seq<ProjectTask>, x: string, root: string, ids: seq<string>) {
    exists t :: t in tasks && t.id == x && ParentIn(t, root, ids)
  }

  /** Each id is a child of `root` or of an id listed before it: no id is there without reason. */
  predicate Justified(tasks: seq<ProjectTask>, root: string, ids: seq<string>) {
    forall k :: 0 <= k < |ids| ==> HasParentIn(tasks, ids[k], root, ids[..k])
  }

  lemma JustifiedAppend(tasks: seq<ProjectTask>, root: string, before: seq<string>, c: ProjectTask, sub: seq<string>)
    requires Justified(tasks, root, before)
    requires c in tasks && c.parentId == Some(root)
    requires Justified(tasks, c.id, sub)
    ensures Justified(tasks, root, before + [c.id] + sub)
  {
    var all := before + [c.id] + sub;
    forall k | 0 <= k < |all| ensures HasParentIn(tasks, all[k], root, all[..k]) {
      if k < |before| {
        assert all[..k] == before[..k];
        assert all[k] == before[k];
      } else if k == |before| {
        assert all[k] == c.id && ParentIn(c, root, all[..k]);
      } else {
        var m := k - |before| - 1;
        assert all[k] == sub[m];
        assert all[..k] == before + [c.id] + sub[..m];
        var t :| t in tasks && t.id == sub[m] && ParentIn(t, c.id, sub[..m]);
        assert c.id in all[..k];
        assert ParentIn(t, root, all[..k]);
      }
    }
  }

  lemma ClosedAppend(tasks: seq<ProjectTask>, before: seq<string>, cid: string, sub: seq<string>)
    requires ClosedBelow(tasks, before)
    requires ClosedUnder(tasks, cid, sub)
    ensures ClosedBelow(tasks, before + [cid] + sub)
  {
  }

  /** getAllChildTaskIds(parentId): the ids of the tasks below `parentId`, each child followed
      by its own descendants. The list is closed under the child relation and lists nothing
      that is not reached from `parentId`; it terminates because parent links are acyclic. */
  method GetAllChildTaskIds(tasks: seq<ProjectTask>, parentId: string, ghost rank: string -> nat)
    returns (childIds: seq<string>)
    requires RankedBelow(tasks, parentId, rank)
    ensures ClosedUnder(tasks, parentId, childIds)
    ensures Justified(tasks, parentId, childIds)
    decreases rank(parentId), 1
  {
    childIds := [];
    var directChildren := Seqs.Filter((t: ProjectTask) => t.parentId == Some(parentId), tasks);
    var j := 0;
    while j < |directChildren|
      invariant 0 <= j <= |directChildren|
      invariant forall k :: 0 <= k < j ==> directChildren[k].id in childIds
      invariant ClosedBelow(tasks, childIds)
      invariant Justified(tasks, parentId, childIds)
    {
      var child := directChildren[j];
      assert child in directChildren;
      ghost var before := childIds;
      childIds := PushDescendants(tasks, parentId, childIds, child, rank);
      forall k | 0 <= k < j + 1 ensures directChildren[k].id in childIds {
        if k < j {
          assert directChildren[k].id in before;
        }
      }
      j := j + 1;
    }
    DirectChildrenCovered(tasks, parentId, directChildren, childIds);
  }

  /** Closed below its own ids, and holding every direct child of `root`, a list is closed
      under the child relation of `root`. */
  lemma DirectChildrenCovered(tasks: seq<ProjectTask>, root: string, direct: seq<ProjectTask>, ids: seq<string>)
    requires direct == Seqs.Filter((t: ProjectTask) => t.parentId == Some(root), tasks)
    requires forall k :: 0 <= k < |direct| ==> direct[k].id in ids
    requires ClosedBelow(tasks, ids)
    ensures ClosedUnder(tasks, root, ids)
  {
    forall t | t in tasks && ParentIn(t, root, ids) ensures t.id in ids {
      if t.parentId.value == root {
        assert t in direct;
        var k :| 0 <= k < |direct| && direct[k] == t;
      }
    }
  }

  /** One round of the forEach in getAllChildTaskIds: the child's id, then everything below
      it, pushed after the ids collected so far. */
  method PushDescendants(tasks: seq<ProjectTask>, parentId: string, childIds: seq<string>, child: ProjectTask,
                         ghost rank: string -> nat)
    returns (next: seq<string>)
    requires RankedBelow(tasks, parentId, rank)
    requires child in tasks && child.parentId == Some(parentId)
    requires ClosedBelow(tasks, childIds) && Justified(tasks, parentId, childIds)
    ensures ClosedBelow(tasks, next) && Justified(tasks, parentId, next)
    ensures forall x :: x in childIds ==> x in next
    ensures child.id in next
    decreases rank(parentId), 0
  {
    assert rank(child.id) < rank(parentId);
    var sub := GetAllChildTaskIds(tasks, child.id, rank);
    JustifiedAppend(tasks, parentId, childIds, child, sub);
    ClosedAppend(tasks, childIds, child.id, sub);
    next := childIds + [child.id] + sub;
  }

  /** A justified list lies inside every set that is closed under the child relation of
      `root`: together with closure, it holds exactly the descendants of `root`. */
  lemma {:induction false} JustifiedWithinClosed(tasks: seq<ProjectTask>, root: string, ids: seq<string>, closed: set<string>)
    requires Justified(tasks, root, ids)
    requires forall t :: t in tasks && t.parentId.Some? && (t.parentId.value == root || t.parentId.value in closed) ==> t.id in closed
    ensures forall x :: x in ids ==> x in closed
    decreases |ids|
  {
    if ids != [] {
      var n := |ids| - 1;
      var init := ids[..n];
      forall k | 0 <= k < |init| ensures HasParentIn(tasks, init[k], root, init[..k]) {
        assert init[..k] == ids[..k];
      }
      JustifiedWithinClosed(tasks, root, init, closed);
      var t :| t in tasks && t.id == ids[n] && ParentIn(t, root, ids[..n]);
      assert ids == init + [ids[n]];
    }
  }

  /** handleDeleteTask: no call of onUpdateTasks for an unknown id; otherwise the task, every
      task below it, and nothing else is removed, the rest kept in order. `removed` lists the
      deleted ids: the task's own id, then its descendants. */
  method DeleteTask(tasks: seq<ProjectTask>, taskId: string, ghost rank: string -> nat)
    returns (updated: Option<seq<ProjectTask>>, ghost removed: seq<string>)
    requires (exists t :: t in tasks && t.id == taskId) ==> RankedBelow(tasks, taskId, rank)
    ensures updated.None? <==> forall t :: t in tasks ==> t.id != taskId
    ensures updated.Some? ==>
      && |removed| > 0 && removed[0] == taskId
      && ClosedUnder(tasks, taskId, removed[1..])
      && Justified(tasks, taskId, removed[1..])
      && updated.value == Seqs.Filter((t: ProjectTask) => t.id !in removed, tasks)
    ensures updated.Some? ==>
      forall t :: t in updated.value ==> t.id != taskId && !(t.parentId.Some? && t.parentId.value == taskId)
    ensures updated.Some? ==> Seqs.IsSubseq(updated.value, tasks)
  {
    if forall t :: t in tasks ==> t.id != taskId {
      return None, [];
    }
    var childTaskIds := GetAllChildTaskIds(tasks, taskId, rank);
    var allTaskIdsToDelete := [taskId] + childTaskIds;
    var kept := Seqs.Filter((t: ProjectTask) => t.id !in allTaskIdsToDelete, tasks);
    updated := Some(kept);
    removed := allTaskIdsToDelete;
    assert removed[1..] == childTaskIds;
    Seqs.FilterIsSubseq((t: ProjectTask) => t.id !in allTaskIdsToDelete, tasks);
  }

  /** A parent cycle away from the task being deleted does not stand in the way: in
      [a (parent b), b (parent a), c (no parent)] the links reached from c are acyclic, so
      deleting c is covered, as the source completes it. */
  lemma CycleElsewhereAllowsDelete(a: ProjectTask, b: ProjectTask, c: ProjectTask)
    requires a.id == "a" && a.parentId == Some("b")
    requires b.id == "b" && b.parentId == Some("a")
    requires c.id == "c" && c.parentId.None?
    ensures RankedBelow([a, b, c], "c", (x: string) => if x == "c" then 0 else 1)
  {
  }
}
