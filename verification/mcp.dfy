/** The decisions the MCP server's tool handlers make before and after
    calling Jira (jira_mcp_server/mcp_server.py): the default week ending
    and the report window of `generate_weekly_report`, the criteria and the
    classification of `get_issues`, and the label arithmetic of
    `update_issue`. The Jira calls are parameters: the issues they return are
    inputs here. */
module McpServer {
  import opened Wrappers
  import opened Seqs
  import opened Calendar
  import opened Models
  import opened CoreConfig
  import opened Classifier
  import opened Report

  // ---------------------------------------------------------------------
  // generate_weekly_report: the week

  /** The default week ending: the last Friday on or before `today`. */
  function DefaultWeekEnding(today: int): (r: int)
    ensures Weekday(r) == Friday
    ensures 0 <= today - r <= 6
  {
    today - (Weekday(today) + 3) % 7
  }

  /** No Friday lies strictly between the default week ending and today,
      so it is the latest Friday not after today. */
  lemma DefaultWeekEndingIsLatest(today: int, d: int)
    requires DefaultWeekEnding(today) < d <= today
    ensures Weekday(d) != Friday
  {}

  /** On a Friday the default week ending is that very day. */
  lemma DefaultWeekEndingOfFriday(today: int)
    ensures DefaultWeekEnding(DefaultWeekEnding(today)) == DefaultWeekEnding(today)
    ensures Weekday(today) == Friday <==> DefaultWeekEnding(today) == today
  {}

  /** `week_ending` as given (already parsed), or the default one. */
  function WeekEnding(given: Option<int>, today: int): (r: int)
    ensures given.Some? ==> r == given.value
    ensures given.None? ==> Weekday(r) == Friday && 0 <= today - r <= 6
  {
    match given
    case Some(d) => d
    case None => DefaultWeekEnding(today)
  }

  /** The criteria of the weekly report: updated from 00:00:00 six days
      before the week ending to 23:59:59.999999 on it, with the projects and
      boards the caller passed. */
  function ReportCriteria(weekEnding: int, projects: Option<seq<string>>, boards: Option<seq<int>>): (c: FilterCriteria)
    ensures c.updatedAfter == Some(StartOfDay(weekEnding - 6))
    ensures c.updatedBefore == Some(EndOfDay(weekEnding))
    ensures c.projects == (if projects.Some? then projects.value else [])
    ensures c.boards == (if boards.Some? then boards.value else [])
    ensures c.statuses == [] && c.customJql == None
  {
    NoCriteria().(
      updatedAfter := Some(WindowStart(weekEnding)),
      updatedBefore := Some(WindowEnd(weekEnding)),
      projects := if projects.Some? then projects.value else [],
      boards := if boards.Some? then boards.value else [])
  }

  /** The report criteria select exactly the seven dates ending on the week
      ending: the same window the categorizer uses. */
  lemma ReportWindowIsSevenDays(weekEnding: int, ts: int, projects: Option<seq<string>>, boards: Option<seq<int>>)
    ensures var c := ReportCriteria(weekEnding, projects, boards);
      c.updatedAfter.value <= ts <= c.updatedBefore.value <==> weekEnding - 6 <= DayOf(ts) <= weekEnding
  {
    WithinDays(ts, weekEnding - 6, weekEnding);
  }

  // ---------------------------------------------------------------------
  // get_issues

  /** The arguments of `get_issues`; `None` is an absent key. */
  datatype GetIssuesArgs = GetIssuesArgs(
    projects: Option<seq<string>>,
    boards: Option<seq<int>>,
    statuses: Option<seq<string>>,
    updatedSinceDays: Option<int>,
    applyRagClassification: Option<bool>)

  const DefaultUpdatedSinceDays: int := 7

  /** The filter `get_issues` fetches with; `now` is the current time. */
  function IssuesCriteria(args: GetIssuesArgs, now: int): (c: FilterCriteria)
    ensures c.projects == (if args.projects.Some? then args.projects.value else [])
    ensures c.boards == (if args.boards.Some? then args.boards.value else [])
    ensures c.statuses == (if args.statuses.Some? then args.statuses.value else [])
    ensures var days := args.updatedSinceDays.GetOr(DefaultUpdatedSinceDays);
      (days > 0 <==> c.updatedAfter.Some?) && (days > 0 ==> c.updatedAfter.value == now - days * MicrosPerDay)
    ensures c.updatedBefore == None && c.customJql == None
  {
    var days := args.updatedSinceDays.GetOr(DefaultUpdatedSinceDays);
    NoCriteria().(
      projects := if args.projects.Some? then args.projects.value else [],
      boards := if args.boards.Some? then args.boards.value else [],
      statuses := if args.statuses.Some? then args.statuses.value else [],
      updatedAfter := if days > 0 then Some(now - days * MicrosPerDay) else None)
  }

  /** The green, amber and red counts of the response. */
  datatype TierCounts = TierCounts(green: nat, amber: nat, red: nat)

  /** The response of `get_issues`: the issues, their count and the
      optional summary. */
  datatype IssuesResponse = IssuesResponse(issues: seq<Issue>, count: nat, ragSummary: Option<TierCounts>)

  /** Each issue stamped with its own classification. */
  function ClassifyEach(c: RagConfig, issues: seq<Issue>): (r: seq<Issue>)
    ensures |r| == |issues|
    ensures forall k | 0 <= k < |issues| :: r[k] == Stamp(issues[k], Classify(c, issues[k]))
  {
    if |issues| == 0 then [] else [Stamp(issues[0], Classify(c, issues[0]))] + ClassifyEach(c, issues[1..])
  }

  /** `_handle_get_issues` once Jira has returned `fetched`. Classification
      is on unless the caller turns it off; the summary is present exactly
      when it is on. */
  function GetIssues(c: RagConfig, args: GetIssuesArgs, fetched: seq<Issue>): (r: IssuesResponse)
    ensures r.count == |r.issues| == |fetched|
    ensures args.applyRagClassification.GetOr(true) ==>
      r.ragSummary.Some?
      && (forall k | 0 <= k < |fetched| ::
            r.issues[k] == Stamp(fetched[k], Classify(c, fetched[k])) && r.issues[k].ragStatus.Some?)
      && r.ragSummary.value == TierCounts(CountStatus(r.issues, Some(Green)),
                                          CountStatus(r.issues, Some(Amber)),
                                          CountStatus(r.issues, Some(Red)))
    ensures !args.applyRagClassification.GetOr(true) ==> r.issues == fetched && r.ragSummary.None?
  {
    if args.applyRagClassification.GetOr(true) then
      var issues := ClassifyEach(c, fetched);
      IssuesResponse(issues, |issues|, Some(TierCounts(CountStatus(issues, Some(Green)),
                                                       CountStatus(issues, Some(Amber)),
                                                       CountStatus(issues, Some(Red)))))
    else IssuesResponse(fetched, |fetched|, None)
  }

  /** The classifier gives `s` to an issue, as a test on issues. */
  function ClassifiedAs(c: RagConfig, s: RagStatus): Issue -> bool {
    (i: Issue) => Classify(c, i).status == s
  }

  /** Stamping every issue counts each tier as classifying the fetched
      issues would. */
  lemma {:induction false} ClassifyEachCounts(c: RagConfig, issues: seq<Issue>, s: RagStatus)
    ensures CountStatus(ClassifyEach(c, issues), Some(s)) == CountWhere(issues, ClassifiedAs(c, s))
    ensures CountStatus(ClassifyEach(c, issues), None) == 0
  {
    var r := ClassifyEach(c, issues);
    if |issues| == 0 {
      assert r == [];
      assert WithStatus(r, Some(s)) == [] && WithStatus(r, None) == [];
      assert Filter(issues, ClassifiedAs(c, s)) == [];
    } else {
      ClassifyEachCounts(c, issues[1..], s);
      assert r[1..] == ClassifyEach(c, issues[1..]);
      CountStatusCons(r, Some(s));
      CountStatusCons(r, None);
      CountWhereCons(issues, ClassifiedAs(c, s));
    }
  }

  /** With classification on, the summary counts the fetched issues by
      their classification, and its three counts add up to the count. */
  lemma SummaryCountsClassifications(c: RagConfig, args: GetIssuesArgs, fetched: seq<Issue>)
    requires args.applyRagClassification.GetOr(true)
    ensures var r := GetIssues(c, args, fetched);
      r.ragSummary.value.green == CountWhere(fetched, ClassifiedAs(c, Green))
      && r.ragSummary.value.amber == CountWhere(fetched, ClassifiedAs(c, Amber))
      && r.ragSummary.value.red == CountWhere(fetched, ClassifiedAs(c, Red))
      && r.ragSummary.value.green + r.ragSummary.value.amber + r.ragSummary.value.red == r.count
  {
    var issues := ClassifyEach(c, fetched);
    ClassifyEachCounts(c, fetched, Green);
    ClassifyEachCounts(c, fetched, Amber);
    ClassifyEachCounts(c, fetched, Red);
    CountsPartition(issues);
  }

  // ---------------------------------------------------------------------
  // update_issue: labels

  /** The label arguments of `update_issue`; `None` is an absent key. */
  datatype LabelArgs = LabelArgs(
    labels: Option<seq<string>>,
    addLabels: Option<seq<string>>,
    removeLabels: Option<seq<string>>)

  /** What is sent as the new labels: the caller's list as given, or a set
      built from the issue's current labels. */
  datatype LabelUpdate = Replace(list: seq<string>) | Merged(labels: set<string>)

  /** A non-empty `labels` argument. */
  predicate Replaces(args: LabelArgs) {
    args.labels.Some? && |args.labels.value| > 0
  }

  /** The label update of `_handle_update_issue`, given the issue's current
      labels. `None` means labels are not updated. A `remove_labels`
      argument reaches `set.discard` with the whole list, which is not
      hashable: the `TypeError` is the error here. */
  function LabelsUpdate(args: LabelArgs, current: seq<string>): (r: Result<Option<LabelUpdate>>)
    ensures Replaces(args) ==> r == Ok(Some(Replace(args.labels.value)))
    ensures r.Err? <==> !Replaces(args) && args.removeLabels.Some?
    ensures !Replaces(args) && args.removeLabels.None? ==>
      (args.addLabels.None? <==> r == Ok(None))
      && (args.addLabels.Some? ==> r == Ok(Some(Merged(ToSet(current) + ToSet(args.addLabels.value)))))
  {
    if Replaces(args) then Ok(Some(Replace(args.labels.value)))
    else if args.addLabels.Some? || args.removeLabels.Some? then
      var merged := if args.addLabels.Some? then ToSet(current) + ToSet(args.addLabels.value) else ToSet(current);
      if args.removeLabels.Some? then Err("TypeError: unhashable type: 'list'")
      else Ok(Some(Merged(merged)))
    else Ok(None)
  }

  /** The elements of a list. */
  function ToSet(s: seq<string>): (r: set<string>)
    ensures forall x :: x in r <==> x in s
  {
    set x | x in s
  }

  /** Adding labels never drops a current label, and adding the same labels
      again to the result changes nothing. */
  lemma AddLabelsKeepsAndSettles(current: seq<string>, add: seq<string>)
    ensures var r := LabelsUpdate(LabelArgs(None, Some(add), None), current);
      r.Ok? && r.value.Some? && r.value.value.Merged?
      && (forall x | x in current :: x in r.value.value.labels)
      && (forall x | x in add :: x in r.value.value.labels)
      && r.value.value.labels + ToSet(add) == r.value.value.labels
  {}

  /** Any `remove_labels`, even an empty list, fails unless `labels`
      replaces them first. */
  lemma RemoveLabelsFails(current: seq<string>, remove: seq<string>)
    ensures LabelsUpdate(LabelArgs(None, None, Some(remove)), current).Err?
    ensures LabelsUpdate(LabelArgs(Some([]), Some(["x"]), Some(remove)), current).Err?
  {}

  /** The update `remove_labels` evidently means: add, then discard each
      listed label. */
  function IntendedLabelsUpdate(args: LabelArgs, current: seq<string>): (r: Option<LabelUpdate>)
    ensures Replaces(args) ==> r == Some(Replace(args.labels.value))
    ensures !Replaces(args) && (args.addLabels.Some? || args.removeLabels.Some?) ==>
      r.Some? && r.value.Merged?
      && forall x :: x in r.value.labels <==>
           (x in current || (args.addLabels.Some? && x in args.addLabels.value))
           && !(args.removeLabels.Some? && x in args.removeLabels.value)
    ensures !Replaces(args) && args.addLabels.None? && args.removeLabels.None? ==> r.None?
  {
    if Replaces(args) then Some(Replace(args.labels.value))
    else if args.addLabels.Some? || args.removeLabels.Some? then
      var added := if args.addLabels.Some? then ToSet(current) + ToSet(args.addLabels.value) else ToSet(current);
      Some(Merged(if args.removeLabels.Some? then added - ToSet(args.removeLabels.value) else added))
    else None
  }

  /** Where the code as written succeeds, the intended update agrees with it. */
  lemma IntendedAgreesWithoutRemovals(args: LabelArgs, current: seq<string>)
    requires LabelsUpdate(args, current).Ok?
    ensures IntendedLabelsUpdate(args, current) == LabelsUpdate(args, current).value
  {}
}
