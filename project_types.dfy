/** The project entities (ai-notebook/types/project.ts). A null parentId is None. */
module ProjectTypes {
  import opened Wrappers

  datatype Project = Project(id: string, name: string, createdAt: string, updatedAt: string)

  datatype ProjectTask = ProjectTask(
    id: string,
    projectId: string,
    parentId: Option<string>,
    title: string,
    description: string,
    dueDate: string,
    priority: string,
    assignee: string,
    isCompleted: bool,
    createdAt: string,
    updatedAt: string)

  function TaskIds(tasks: seq<ProjectTask>): (ids: seq<string>)
    ensures |ids| == |tasks|
    ensures forall i :: 0 <= i < |tasks| ==> ids[i] == tasks[i].id
  {
    seq(|tasks|, i requires 0 <= i < |tasks| => tasks[i].id)
  }

  function ProjectIds(projects: seq<Project>): (ids: seq<string>)
    ensures |ids| == |projects|
    ensures forall i :: 0 <= i < |projects| ==> ids[i] == projects[i].id
  {
    seq(|projects|, i requires 0 <= i < |projects| => projects[i].id)
  }
}
