/** The daily report editor (ai-notebook-github-upload/components/daily-report-editor.tsx).
    The editor shows the first report of the selected date and project; every change merges
    into that report, replaces it by id in the list and hands the list to
    onUpdateDailyReports. The selected date is an input, not derived from a clock. */
module DailyReportEditor {
  import opened Wrappers
  import opened Text
  import opened ReportTypes
  import Seqs

  /** `r.date === selectedDate && r.projectId === projectId` */
  predicate Shows(r: DailyReport, date: string, projectId: string) {
    r.date == date && r.projectId == projectId
  }

  /** The effect that picks the shown report: the first one for the date and project, null if none. */
  function CurrentReport(reports: seq<DailyReport>, date: string, projectId: string): (r: Option<DailyReport>)
    ensures r.None? <==> forall i :: 0 <= i < |reports| ==> !Shows(reports[i], date, projectId)
    ensures r.Some? ==> r.value in reports && Shows(r.value, date, projectId)
    ensures r.Some? ==> exists i :: 0 <= i < |reports| && reports[i] == r.value &&
                                    forall k :: 0 <= k < i ==> !Shows(reports[k], date, projectId)
  {
    var r := Seqs.Find((x: DailyReport) => Shows(x, date, projectId), reports);
    if r.Some? then Seqs.FindFound((x: DailyReport) => Shows(x, date, projectId), reports); r else r
  }

  /** The report handleCreateReport makes: nothing written yet. */
  function NewReport(projectId: string, date: string, id: string, now: string): (r: DailyReport)
    ensures r.id == id && Shows(r, date, projectId)
    ensures r.tasks == [] && r.plans == [] && r.progress == "" && r.issues == ""
    ensures r.createdAt == now && r.updatedAt == now
  {
    DailyReport(id, projectId, date, [], "", "", [], now, now)
  }

  /** handleCreateReport: the new report appended and shown. */
  function CreateReport(reports: seq<DailyReport>, projectId: string, date: string, id: string, now: string): (e: Edited<DailyReport>)
    ensures e.current == NewReport(projectId, date, id, now)
    ensures |e.reports| == |reports| + 1 && e.reports[..|reports|] == reports && e.reports[|reports|] == e.current
  {
    var r := NewReport(projectId, date, id, now);
    assert (reports + [r])[..|reports|] == reports;
    Edited(reports + [r], r)
  }

  /** Once the parent passes the list back, the effect shows the created report, provided the
      date and project had no report before (the only case the create button is offered). */
  lemma CreatedReportIsShown(reports: seq<DailyReport>, projectId: string, date: string, id: string, now: string)
    requires CurrentReport(reports, date, projectId).None?
    ensures var e := CreateReport(reports, projectId, date, id, now);
            CurrentReport(e.reports, date, projectId) == Some(e.current)
  {
    var e := CreateReport(reports, projectId, date, id, now);
    assert e.reports[|reports|] == e.current;
    forall k | 0 <= k < |reports| ensures !Shows(e.reports[k], date, projectId) {
      assert e.reports[k] == reports[k];
    }
  }

  /** `Partial<DailyReport>`: a field is None when the update leaves it out. updatedAt is left
      out because the handler overwrites it. */
  datatype Patch = Patch(id: Option<string>, projectId: Option<string>, date: Option<string>,
                         tasks: Option<seq<string>>, progress: Option<string>, issues: Option<string>,
                         plans: Option<seq<string>>, createdAt: Option<string>)

  /** The update that sets nothing. */
  const NoChange: Patch := Patch(None, None, None, None, None, None, None, None)

  /** `{...report, ...updates, updatedAt}` */
  function Merge(r: DailyReport, u: Patch, now: string): (m: DailyReport)
    ensures m.id == u.id.GetOr(r.id) && m.projectId == u.projectId.GetOr(r.projectId) && m.date == u.date.GetOr(r.date)
    ensures m.tasks == u.tasks.GetOr(r.tasks) && m.plans == u.plans.GetOr(r.plans)
    ensures m.progress == u.progress.GetOr(r.progress) && m.issues == u.issues.GetOr(r.issues)
    ensures m.createdAt == u.createdAt.GetOr(r.createdAt) && m.updatedAt == now
  {
    DailyReport(u.id.GetOr(r.id), u.projectId.GetOr(r.projectId), u.date.GetOr(r.date), u.tasks.GetOr(r.tasks),
                u.progress.GetOr(r.progress), u.issues.GetOr(r.issues), u.plans.GetOr(r.plans),
                u.createdAt.GetOr(r.createdAt), now)
  }

  /** An update that sets nothing changes only the stamp. */
  lemma MergeNothing(r: DailyReport, now: string)
    ensures Merge(r, NoChange, now) == r.(updatedAt := now)
  {
  }

  /** handleUpdateReport(updates): without a shown report nothing happens; otherwise the merged
      report replaces every report with the shown report's id and becomes the shown report. */
  function UpdateReport(reports: seq<DailyReport>, current: Option<DailyReport>, u: Patch, now: string): (r: Option<Edited<DailyReport>>)
    ensures r.None? <==> current.None?
    ensures r.Some? ==> r.value.current == Merge(current.value, u, now)
    ensures r.Some? ==> |r.value.reports| == |reports|
    ensures r.Some? ==> forall i :: 0 <= i < |reports| ==>
              r.value.reports[i] == if reports[i].id == current.value.id then r.value.current else reports[i]
  {
    match current
    case None => None
    case Some(c) =>
      var m := Merge(c, u, now);
      Some(Edited(Seqs.MapWhere(reports, (x: DailyReport) => x.id == c.id, (x: DailyReport) => m), m))
  }

  /** After an update that keeps the date and the project, the effect goes on showing the
      report just written. */
  lemma UpdatedReportStaysShown(reports: seq<DailyReport>, date: string, projectId: string, u: Patch, now: string)
    requires CurrentReport(reports, date, projectId).Some?
    requires u.date.None? && u.projectId.None?
    ensures var e := UpdateReport(reports, CurrentReport(reports, date, projectId), u, now).value;
            CurrentReport(e.reports, date, projectId) == Some(e.current)
  {
    var c := CurrentReport(reports, date, projectId).value;
    var m := Merge(c, u, now);
    Seqs.FindAfterMapWhere((x: DailyReport) => Shows(x, date, projectId), (x: DailyReport) => x.id == c.id,
                           (x: DailyReport) => m, reports, m);
  }

  /** The two string lists of a daily report. */
  datatype Section = Tasks | Plans

  function ListOf(r: DailyReport, s: Section): seq<string> {
    match s
    case Tasks => r.tasks
    case Plans => r.plans
  }

  /** The update `{ tasks: list }` or `{ plans: list }`: it sets that one list and nothing else. */
  function SetList(s: Section, list: seq<string>): (u: Patch)
    ensures s == Tasks ==> u == NoChange.(tasks := Some(list))
    ensures s == Plans ==> u == NoChange.(plans := Some(list))
  {
    match s
    case Tasks => NoChange.(tasks := Some(list))
    case Plans => NoChange.(plans := Some(list))
  }

  /** Writing one list through Merge changes that list and the stamp and keeps every other field. */
  lemma SetListKeepsOthers(r: DailyReport, s: Section, list: seq<string>, now: string)
    ensures var m := Merge(r, SetList(s, list), now);
            && ListOf(m, s) == list
            && (forall o :: o != s ==> ListOf(m, o) == ListOf(r, o))
            && m.(tasks := r.tasks, plans := r.plans, updatedAt := r.updatedAt) == r
  {
  }

  /** handleAddTask and handleAddPlan: a non-blank input is appended, trimmed, to that list of
      the shown report and cleared; a blank input, or no shown report, does nothing. */
  function AddEntry(reports: seq<DailyReport>, current: Option<DailyReport>, s: Section, input: string, now: string): (r: AddOutcome<DailyReport>)
    ensures r.update.None? <==> current.None? || AllWhitespace(input)
    ensures r.update.None? ==> r.input == input
    ensures r.update.Some? ==> r.input == ""
    ensures r.update.Some? ==>
              r.update == UpdateReport(reports, current, SetList(s, ListOf(current.value, s) + [Trim(input)]), now)
    ensures r.update.Some? ==> var l := ListOf(r.update.value.current, s);
              l == ListOf(current.value, s) + [Trim(input)] && l[|l| - 1] != ""
  {
    if current.None? then AddOutcome(None, input)
    else
      match AppendTrimmed(ListOf(current.value, s), input)
      case None => AddOutcome(None, input)
      case Some(l) =>
        assert l == ListOf(current.value, s) + [Trim(input)];
        SetListKeepsOthers(current.value, s, l, now);
        AddOutcome(UpdateReport(reports, current, SetList(s, l), now), "")
  }

  /** handleRemoveTask and handleRemovePlan(index): that list without the entry at `index`
      (all of it for an index out of range), written back through handleUpdateReport. */
  function RemoveEntry(reports: seq<DailyReport>, current: Option<DailyReport>, s: Section, index: int, now: string): (r: Option<Edited<DailyReport>>)
    ensures r.None? <==> current.None?
    ensures r.Some? ==> r == UpdateReport(reports, current, SetList(s, Seqs.RemoveAt(ListOf(current.value, s), index)), now)
    ensures r.Some? && 0 <= index < |ListOf(current.value, s)| ==>
              var l := ListOf(current.value, s);
              ListOf(r.value.current, s) == l[..index] + l[index + 1..]
  {
    match current
    case None => None
    case Some(c) =>
      SetListKeepsOthers(c, s, Seqs.RemoveAt(ListOf(c, s), index), now);
      UpdateReport(reports, current, SetList(s, Seqs.RemoveAt(ListOf(c, s), index)), now)
  }

  /** Removing the entry just added restores the report, apart from the stamp. */
  lemma RemoveAddedEntryRestores(reports: seq<DailyReport>, current: DailyReport, s: Section, input: string,
                                 now1: string, now2: string)
    requires !AllWhitespace(input)
    ensures var added := AddEntry(reports, Some(current), s, input, now1).update.value;
            var removed := RemoveEntry(added.reports, Some(added.current), s, |ListOf(current, s)|, now2).value;
            removed.current == current.(updatedAt := now2)
  {
    var added := AddEntry(reports, Some(current), s, input, now1).update.value;
    Seqs.RemoveLastAppended(ListOf(current, s), Trim(input));
    SetListKeepsOthers(current, s, ListOf(current, s) + [Trim(input)], now1);
    SetListKeepsOthers(added.current, s, ListOf(current, s), now2);
  }
}
