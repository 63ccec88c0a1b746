/** The weekly report editor (ai-notebook-github-upload/components/weekly-report-editor.tsx).
    The editor shows the first report of the selected week start and project; every change
    merges into that report, replaces it by id and hands the list to onUpdateWeeklyReports.
    The selected week start and its week end are inputs, not calendar arithmetic. */
module WeeklyReportEditor {
  import opened Wrappers
  import opened Text
  import opened ReportTypes
  import Seqs

  /** `r.weekStart === selectedWeekStart && r.projectId === projectId` */
  predicate Shows(r: WeeklyReport, weekStart: string, projectId: string) {
    r.weekStart == weekStart && r.projectId == projectId
  }

  /** The effect that picks the shown report: the first one for the week and project, null if none. */
  function CurrentReport(reports: seq<WeeklyReport>, weekStart: string, projectId: string): (r: Option<WeeklyReport>)
    ensures r.None? <==> forall i :: 0 <= i < |reports| ==> !Shows(reports[i], weekStart, projectId)
    ensures r.Some? ==> r.value in reports && Shows(r.value, weekStart, projectId)
    ensures r.Some? ==> exists i :: 0 <= i < |reports| && reports[i] == r.value &&
                                    forall k :: 0 <= k < i ==> !Shows(reports[k], weekStart, projectId)
  {
    var r := Seqs.Find((x: WeeklyReport) => Shows(x, weekStart, projectId), reports);
    if r.Some? then Seqs.FindFound((x: WeeklyReport) => Shows(x, weekStart, projectId), reports); r else r
  }

  /** The report handleCreateReport makes: nothing written yet. */
  function NewReport(projectId: string, weekStart: string, weekEnd: string, id: string, now: string): (r: WeeklyReport)
    ensures r.id == id && Shows(r, weekStart, projectId) && r.weekEnd == weekEnd
    ensures r.summary == "" && r.achievements == [] && r.challenges == [] && r.nextWeekPlans == []
    ensures r.createdAt == now && r.updatedAt == now
  {
    WeeklyReport(id, projectId, weekStart, weekEnd, "", [], [], [], now, now)
  }

  /** handleCreateReport: the new report appended and shown. */
  function CreateReport(reports: seq<WeeklyReport>, projectId: string, weekStart: string, weekEnd: string,
                        id: string, now: string): (e: Edited<WeeklyReport>)
    ensures e.current == NewReport(projectId, weekStart, weekEnd, id, now)
    ensures |e.reports| == |reports| + 1 && e.reports[..|reports|] == reports && e.reports[|reports|] == e.current
  {
    var r := NewReport(projectId, weekStart, weekEnd, id, now);
    assert (reports + [r])[..|reports|] == reports;
    Edited(reports + [r], r)
  }

  /** Once the parent passes the list back, the effect shows the created report, provided the
      week and project had no report before (the only case the create button is offered). */
  lemma CreatedReportIsShown(reports: seq<WeeklyReport>, projectId: string, weekStart: string, weekEnd: string,
                             id: string, now: string)
    requires CurrentReport(reports, weekStart, projectId).None?
    ensures var e := CreateReport(reports, projectId, weekStart, weekEnd, id, now);
            CurrentReport(e.reports, weekStart, projectId) == Some(e.current)
  {
    var e := CreateReport(reports, projectId, weekStart, weekEnd, id, now);
    assert e.reports[|reports|] == e.current;
    forall k | 0 <= k < |reports| ensures !Shows(e.reports[k], weekStart, projectId) {
      assert e.reports[k] == reports[k];
    }
  }

  /** `Partial<WeeklyReport>`: a field is None when the update leaves it out. updatedAt is left
      out because the handler overwrites it. */
  datatype Patch = Patch(id: Option<string>, projectId: Option<string>, weekStart: Option<string>,
                         weekEnd: Option<string>, summary: Option<string>, achievements: Option<seq<string>>,
                         challenges: Option<seq<string>>, nextWeekPlans: Option<seq<string>>,
                         createdAt: Option<string>)

  /** The update that sets nothing. */
  const NoChange: Patch := Patch(None, None, None, None, None, None, None, None, None)

  /** `{...report, ...updates, updatedAt}` */
  function Merge(r: WeeklyReport, u: Patch, now: string): (m: WeeklyReport)
    ensures m.id == u.id.GetOr(r.id) && m.projectId == u.projectId.GetOr(r.projectId)
    ensures m.weekStart == u.weekStart.GetOr(r.weekStart) && m.weekEnd == u.weekEnd.GetOr(r.weekEnd)
    ensures m.summary == u.summary.GetOr(r.summary) && m.achievements == u.achievements.GetOr(r.achievements)
    ensures m.challenges == u.challenges.GetOr(r.challenges) && m.nextWeekPlans == u.nextWeekPlans.GetOr(r.nextWeekPlans)
    ensures m.createdAt == u.createdAt.GetOr(r.createdAt) && m.updatedAt == now
  {
    WeeklyReport(u.id.GetOr(r.id), u.projectId.GetOr(r.projectId), u.weekStart.GetOr(r.weekStart),
                 u.weekEnd.GetOr(r.weekEnd), u.summary.GetOr(r.summary), u.achievements.GetOr(r.achievements),
                 u.challenges.GetOr(r.challenges), u.nextWeekPlans.GetOr(r.nextWeekPlans),
                 u.createdAt.GetOr(r.createdAt), now)
  }

  /** handleUpdateReport(updates): without a shown report nothing happens; otherwise the merged
      report replaces every report with the shown report's id and becomes the shown report. */
  function UpdateReport(reports: seq<WeeklyReport>, current: Option<WeeklyReport>, u: Patch, now: string): (r: Option<Edited<WeeklyReport>>)
    ensures r.None? <==> current.None?
    ensures r.Some? ==> r.value.current == Merge(current.value, u, now)
    ensures r.Some? ==> |r.value.reports| == |reports|
    ensures r.Some? ==> forall i :: 0 <= i < |reports| ==>
              r.value.reports[i] == if reports[i].id == current.value.id then r.value.current else reports[i]
  {
    match current
    case None => None
    case Some(c) =>
      var m := Merge(c, u, now);
      Some(Edited(Seqs.MapWhere(reports, (x: WeeklyReport) => x.id == c.id, (x: WeeklyReport) => m), m))
  }

  /** After an update that keeps the week and the project, the effect goes on showing the
      report just written. */
  lemma UpdatedReportStaysShown(reports: seq<WeeklyReport>, weekStart: string, projectId: string, u: Patch, now: string)
    requires CurrentReport(reports, weekStart, projectId).Some?
    requires u.weekStart.None? && u.projectId.None?
    ensures var e := UpdateReport(reports, CurrentReport(reports, weekStart, projectId), u, now).value;
            CurrentReport(e.reports, weekStart, projectId) == Some(e.current)
  {
    var c := CurrentReport(reports, weekStart, projectId).value;
    var m := Merge(c, u, now);
    Seqs.FindAfterMapWhere((x: WeeklyReport) => Shows(x, weekStart, projectId), (x: WeeklyReport) => x.id == c.id,
                           (x: WeeklyReport) => m, reports, m);
  }

  /** The three string lists of a weekly report. */
  datatype Section = Achievements | Challenges | NextWeekPlans

  function ListOf(r: WeeklyReport, s: Section): seq<string> {
    match s
    case Achievements => r.achievements
    case Challenges => r.challenges
    case NextWeekPlans => r.nextWeekPlans
  }

  /** The update `{ [section]: list }`: it sets that one list and nothing else. */
  function SetList(s: Section, list: seq<string>): (u: Patch)
    ensures s == Achievements ==> u == NoChange.(achievements := Some(list))
    ensures s == Challenges ==> u == NoChange.(challenges := Some(list))
    ensures s == NextWeekPlans ==> u == NoChange.(nextWeekPlans := Some(list))
  {
    match s
    case Achievements => NoChange.(achievements := Some(list))
    case Challenges => NoChange.(challenges := Some(list))
    case NextWeekPlans => NoChange.(nextWeekPlans := Some(list))
  }

  /** Writing one list through Merge changes that list and the stamp and keeps every other field. */
  lemma SetListKeepsOthers(r: WeeklyReport, s: Section, list: seq<string>, now: string)
    ensures var m := Merge(r, SetList(s, list), now);
            && ListOf(m, s) == list
            && (forall o :: o != s ==> ListOf(m, o) == ListOf(r, o))
            && m.(achievements := r.achievements, challenges := r.challenges, nextWeekPlans := r.nextWeekPlans,
                  updatedAt := r.updatedAt) == r
  {
  }

  /** handleAddAchievement, handleAddChallenge and handleAddPlan: a non-blank input is
      appended, trimmed, to that list of the shown report and cleared; a blank input, or no
      shown report, does nothing. */
  function AddEntry(reports: seq<WeeklyReport>, current: Option<WeeklyReport>, s: Section, input: string, now: string): (r: AddOutcome<WeeklyReport>)
    ensures r.update.None? <==> current.None? || AllWhitespace(input)
    ensures r.update.None? ==> r.input == input
    ensures r.update.Some? ==> r.input == ""
    ensures r.update.Some? ==>
              r.update == UpdateReport(reports, current, SetList(s, ListOf(current.value, s) + [Trim(input)]), now)
    ensures r.update.Some? ==> var l := ListOf(r.update.value.current, s);
              l == ListOf(current.value, s) + [Trim(input)] && l[|l| - 1] != ""
  {
    if current.None? then AddOutcome(None, input)
    else
      match AppendTrimmed(ListOf(current.value, s), input)
      case None => AddOutcome(None, input)
      case Some(l) =>
        assert l == ListOf(current.value, s) + [Trim(input)];
        SetListKeepsOthers(current.value, s, l, now);
        AddOutcome(UpdateReport(reports, current, SetList(s, l), now), "")
  }

  /** handleRemoveAchievement, handleRemoveChallenge and handleRemovePlan(index): that list
      without the entry at `index` (all of it for an index out of range), written back. */
  function RemoveEntry(reports: seq<WeeklyReport>, current: Option<WeeklyReport>, s: Section, index: int, now: string): (r: Option<Edited<WeeklyReport>>)
    ensures r.None? <==> current.None?
    ensures r.Some? ==> r == UpdateReport(reports, current, SetList(s, Seqs.RemoveAt(ListOf(current.value, s), index)), now)
    ensures r.Some? && 0 <= index < |ListOf(current.value, s)| ==>
              var l := ListOf(current.value, s);
              ListOf(r.value.current, s) == l[..index] + l[index + 1..]
  {
    match current
    case None => None
    case Some(c) =>
      SetListKeepsOthers(c, s, Seqs.RemoveAt(ListOf(c, s), index), now);
      UpdateReport(reports, current, SetList(s, Seqs.RemoveAt(ListOf(c, s), index)), now)
  }

  /** Removing the entry just added restores the report, apart from the stamp. */
  lemma RemoveAddedEntryRestores(reports: seq<WeeklyReport>, current: WeeklyReport, s: Section, input: string,
                                 now1: string, now2: string)
    requires !AllWhitespace(input)
    ensures var added := AddEntry(reports, Some(current), s, input, now1).update.value;
            var removed := RemoveEntry(added.reports, Some(added.current), s, |ListOf(current, s)|, now2).value;
            removed.current == current.(updatedAt := now2)
  {
    var added := AddEntry(reports, Some(current), s, input, now1).update.value;
    Seqs.RemoveLastAppended(ListOf(current, s), Trim(input));
    SetListKeepsOthers(current, s, ListOf(current, s) + [Trim(input)], now1);
    SetListKeepsOthers(added.current, s, ListOf(current, s), now2);
  }
}
