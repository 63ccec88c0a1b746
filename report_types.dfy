/** Daily and weekly reports (ai-notebook/types/report.ts) and what the two report editors
    share: the outcome of a handler and the append-trimmed step on a string list. */
module ReportTypes {
  import opened Wrappers
  import opened Text

  datatype DailyReport = DailyReport(id: string, projectId: string, date: string, tasks: seq<string>,
                                     progress: string, issues: string, plans: seq<string>,
                                     createdAt: string, updatedAt: string)

  datatype WeeklyReport = WeeklyReport(id: string, projectId: string, weekStart: string, weekEnd: string,
                                       summary: string, achievements: seq<string>, challenges: seq<string>,
                                       nextWeekPlans: seq<string>, createdAt: string, updatedAt: string)

  /** A handler that went through: the report list handed to the update callback and the
      report the editor now shows. */
  datatype Edited<R> = Edited(reports: seq<R>, current: R)

  /** An add handler: the edit it made (None when it returned early) and the input text after it. */
  datatype AddOutcome<R> = AddOutcome(update: Option<Edited<R>>, input: string)

  /** `[...list, input.trim()]`, guarded by `!input.trim()`: None for a blank input. */
  function AppendTrimmed(list: seq<string>, input: string): (r: Option<seq<string>>)
    ensures r.None? <==> AllWhitespace(input)
    ensures r.Some? ==> |r.value| == |list| + 1 && r.value[..|list|] == list && r.value[|list|] == Trim(input)
    ensures r.Some? ==> r.value[|list|] != ""
  {
    TrimEmptyIffBlank(input);
    if Trim(input) == "" then None
    else
      assert (list + [Trim(input)])[..|list|] == list;
      Some(list + [Trim(input)])
  }
}
