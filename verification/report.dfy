/** The weekly report categorizer (jira_mcp_server/report_generator.py):
    buckets over an inclusive seven-day window, counts over the whole input,
    its own overall-status formula, and the output-format dispatch. */
module Report {
  import opened Wrappers
  import opened Text
  import opened Seqs
  import opened Calendar
  import opened Models
  import opened Classifier

  const InProgressStatuses: seq<string> :=
    ["in progress", "development", "coding", "implementation", "in development", "work in progress", "doing"]

  /** First instant of the window ending on date `weekEnding`: 00:00:00 six days earlier. */
  function WindowStart(weekEnding: int): int {
    StartOfDay(weekEnding - 6)
  }

  /** Last instant of the window: 23:59:59.999999 on `weekEnding`. */
  function WindowEnd(weekEnding: int): int {
    EndOfDay(weekEnding)
  }

  /** `_was_started_this_week`. */
  predicate WasStartedThisWeek(i: Issue, weekStart: int, weekEnd: int) {
    MentionsAny(i.status.name, InProgressStatuses) && weekStart <= i.updated <= weekEnd
  }

  /** `_was_completed_this_week`. */
  predicate WasCompletedThisWeek(i: Issue, weekStart: int, weekEnd: int) {
    i.resolved.Some? && weekStart <= i.resolved.value <= weekEnd
  }

  function StartedTest(weekEnding: int): Issue -> bool {
    (i: Issue) => WasStartedThisWeek(i, WindowStart(weekEnding), WindowEnd(weekEnding))
  }

  function CompletedTest(weekEnding: int): Issue -> bool {
    (i: Issue) => WasCompletedThisWeek(i, WindowStart(weekEnding), WindowEnd(weekEnding))
  }

  /** The started bucket: an issue is in it exactly when its status names
      work in progress and it was last updated on one of the seven dates
      `weekEnding - 6 .. weekEnding`. */
  function StartedIssues(issues: seq<Issue>, weekEnding: int): (r: seq<Issue>)
    ensures forall i :: i in r <==>
      i in issues && MentionsAny(i.status.name, InProgressStatuses)
      && weekEnding - 6 <= DayOf(i.updated) <= weekEnding
  {
    forall i: Issue ensures WasStartedThisWeek(i, WindowStart(weekEnding), WindowEnd(weekEnding)) <==>
        MentionsAny(i.status.name, InProgressStatuses) && weekEnding - 6 <= DayOf(i.updated) <= weekEnding {
      WithinDays(i.updated, weekEnding - 6, weekEnding);
    }
    Filter(issues, StartedTest(weekEnding))
  }

  /** The completed bucket: resolved on one of the seven dates. */
  function CompletedIssues(issues: seq<Issue>, weekEnding: int): (r: seq<Issue>)
    ensures forall i :: i in r <==>
      i in issues && i.resolved.Some? && weekEnding - 6 <= DayOf(i.resolved.value) <= weekEnding
  {
    forall i: Issue | i.resolved.Some? ensures WasCompletedThisWeek(i, WindowStart(weekEnding), WindowEnd(weekEnding)) <==>
        weekEnding - 6 <= DayOf(i.resolved.value) <= weekEnding {
      WithinDays(i.resolved.value, weekEnding - 6, weekEnding);
    }
    Filter(issues, CompletedTest(weekEnding))
  }

  /** The report's overall status: `amber > green * 0.3` is `10 * amber > 3 * green`. */
  function ReportOverall(green: int, amber: int, red: int): RagStatus {
    if red > 0 then Red
    else if 10 * amber > 3 * green then Amber
    else Green
  }

  /** `_categorize_issues_for_report`: one pass appending to the buckets in
      input order, then the counts over the whole input. */
  method CategorizeIssuesForReport(teamName: string, issues: seq<Issue>, weekEnding: int)
    returns (d: WeeklyReportData)
    ensures d.teamName == teamName
    ensures d.reportWeek == MonthDayText(weekEnding - 6) + " - " + MonthDayYearText(weekEnding)
    ensures d.startedIssues == StartedIssues(issues, weekEnding)
    ensures d.completedIssues == CompletedIssues(issues, weekEnding)
    ensures d.blockedIssues == WithStatus(issues, Some(Red))
    ensures d.atRiskIssues == WithStatus(issues, Some(Amber))
    ensures d.risks == [] && d.celebrations == [] && d.associates == []
    ensures d.totalIssues == |issues|
    ensures d.greenCount == CountStatus(issues, Some(Green))
    ensures d.amberCount == CountStatus(issues, Some(Amber))
    ensures d.redCount == CountStatus(issues, Some(Red))
    ensures d.overallRagStatus == ReportOverall(d.greenCount, d.amberCount, d.redCount)
  {
    var weekStart := WindowStart(weekEnding);
    var weekEnd := WindowEnd(weekEnding);
    var started, completed, blocked, atRisk := [], [], [], [];
    var n := 0;
    while n < |issues|
      invariant 0 <= n <= |issues|
      invariant started == Filter(issues[..n], StartedTest(weekEnding))
      invariant completed == Filter(issues[..n], CompletedTest(weekEnding))
      invariant blocked == Filter(issues[..n], HasStatus(Some(Red)))
      invariant atRisk == Filter(issues[..n], HasStatus(Some(Amber)))
    {
      var issue := issues[n];
      assert issues[..n + 1] == issues[..n] + [issue];
      FilterAppend(issues[..n], issue, StartedTest(weekEnding));
      FilterAppend(issues[..n], issue, CompletedTest(weekEnding));
      FilterAppend(issues[..n], issue, HasStatus(Some(Red)));
      FilterAppend(issues[..n], issue, HasStatus(Some(Amber)));
      if WasStartedThisWeek(issue, weekStart, weekEnd) {
        started := started + [issue];
      }
      if WasCompletedThisWeek(issue, weekStart, weekEnd) {
        completed := completed + [issue];
      }
      if issue.ragStatus == Some(Red) {
        blocked := blocked + [issue];
      } else if issue.ragStatus == Some(Amber) {
        atRisk := atRisk + [issue];
      }
      n := n + 1;
    }
    assert issues[..n] == issues;
    var green := CountStatus(issues, Some(Green));
    var amber := CountStatus(issues, Some(Amber));
    var red := CountStatus(issues, Some(Red));
    var overall := Green;
    if red > 0 {
      overall := Red;
    } else if 10 * amber > 3 * green {
      overall := Amber;
    }
    d := NewWeeklyReportData(teamName, MonthDayText(weekEnding - 6) + " - " + MonthDayYearText(weekEnding));
    d := d.(startedIssues := started, completedIssues := completed, blockedIssues := blocked, atRiskIssues := atRisk,
            totalIssues := |issues|, greenCount := green, amberCount := amber, redCount := red, overallRagStatus := overall);
  }

  /** Every bucket keeps a subset of the input in input order; the blocked
      bucket holds exactly the red issues and the at-risk bucket exactly the
      amber ones, so the two never share an issue. */
  lemma BucketsAreOrderedSubsequences(issues: seq<Issue>, weekEnding: int)
    ensures IsSubsequence(StartedIssues(issues, weekEnding), issues)
    ensures IsSubsequence(CompletedIssues(issues, weekEnding), issues)
    ensures IsSubsequence(WithStatus(issues, Some(Red)), issues)
    ensures IsSubsequence(WithStatus(issues, Some(Amber)), issues)
    ensures forall i :: !(i in WithStatus(issues, Some(Red)) && i in WithStatus(issues, Some(Amber)))
  {
    FilterIsSubsequence(issues, StartedTest(weekEnding));
    FilterIsSubsequence(issues, CompletedTest(weekEnding));
    FilterIsSubsequence(issues, HasStatus(Some(Red)));
    FilterIsSubsequence(issues, HasStatus(Some(Amber)));
  }

  /** The other buckets are not exclusive: one issue can be started,
      completed and blocked in the same week. */
  lemma BucketsOverlap(issues: seq<Issue>, weekEnding: int, i: Issue)
    requires i in issues && i.ragStatus == Some(Red)
    requires MentionsAny(i.status.name, InProgressStatuses)
    requires DayOf(i.updated) == weekEnding && i.resolved == Some(i.updated)
    ensures i in StartedIssues(issues, weekEnding)
    ensures i in CompletedIssues(issues, weekEnding)
    ensures i in WithStatus(issues, Some(Red))
  {
  }

  /** The three tier counts never exceed the total, and reach it exactly
      when every issue is classified. */
  lemma CountsBoundedByTotal(issues: seq<Issue>)
    ensures CountStatus(issues, Some(Green)) + CountStatus(issues, Some(Amber)) + CountStatus(issues, Some(Red)) <= |issues|
    ensures CountStatus(issues, Some(Green)) + CountStatus(issues, Some(Amber)) + CountStatus(issues, Some(Red)) == |issues|
            <==> forall k | 0 <= k < |issues| :: issues[k].ragStatus.Some?
  {
    CountsPartition(issues);
    CountStatusPositive(issues, None);
  }

  /** `amber > green * 0.3` over the reals agrees with the integer test. */
  lemma ThirtyPercentThreshold(green: int, amber: int)
    ensures (amber as real) > (green as real) * 0.3 <==> 10 * amber > 3 * green
  {
  }

  /** The report's status is red exactly when some issue is red, and amber
      exactly when none is and there are more than 3 ambers per 10 greens. */
  lemma ReportOverallMeaning(issues: seq<Issue>)
    ensures ReportOverall(CountStatus(issues, Some(Green)), CountStatus(issues, Some(Amber)),
                          CountStatus(issues, Some(Red))) == Red
            <==> exists k | 0 <= k < |issues| :: issues[k].ragStatus == Some(Red)
    ensures ReportOverall(CountStatus(issues, Some(Green)), CountStatus(issues, Some(Amber)),
                          CountStatus(issues, Some(Red))) == Amber
            <==> (forall k | 0 <= k < |issues| :: issues[k].ragStatus != Some(Red))
                 && 10 * CountStatus(issues, Some(Amber)) > 3 * CountStatus(issues, Some(Green))
  {
    CountStatusPositive(issues, Some(Red));
  }

  /** A single amber issue with no green ones makes the report amber, and
      with no classified issue at all the report is green. */
  lemma ReportOverallEdges()
    ensures ReportOverall(0, 1, 0) == Amber
    ensures ReportOverall(0, 0, 0) == Green
  {
  }

  /** The report's formula and the classifier's disagree both ways: two
      ambers and seven greens are more than a fifth of nine issues but not
      more than 0.3 of the greens; one amber among four unclassified issues
      is exactly a fifth but more than 0.3 of no greens. */
  lemma FormulasDiffer(issues: seq<Issue>)
    requires CountStatus(issues, Some(Red)) == 0
    requires CountStatus(issues, Some(Amber)) == 2 && CountStatus(issues, Some(Green)) == 7 && |issues| == 9
    ensures OverallStatus(issues) == Amber
    ensures ReportOverall(7, 2, 0) == Green
  {
  }

  lemma FormulasDifferUnclassified(issues: seq<Issue>)
    requires CountStatus(issues, Some(Red)) == 0
    requires CountStatus(issues, Some(Amber)) == 1 && CountStatus(issues, Some(Green)) == 0 && |issues| == 5
    ensures OverallStatus(issues) == Green
    ensures ReportOverall(0, 1, 0) == Amber
  {
  }

  datatype ReportFormat = Markdown | Html | Confluence

  /** The format dispatch of `generate_weekly_report`, matched on the
      lowercased name; any other name is a `ValueError`. */
  function SelectFormat(outputFormat: string): (r: Result<ReportFormat>)
    ensures r.Ok? <==> Lower(outputFormat) in {"markdown", "html", "confluence"}
    ensures r == Ok(Markdown) <==> Lower(outputFormat) == "markdown"
    ensures r == Ok(Html) <==> Lower(outputFormat) == "html"
    ensures r == Ok(Confluence) <==> Lower(outputFormat) == "confluence"
    ensures r.Err? ==> r.error == "Unsupported output format: " + outputFormat
  {
    var f := Lower(outputFormat);
    if f == "markdown" then Ok(Markdown)
    else if f == "html" then Ok(Html)
    else if f == "confluence" then Ok(Confluence)
    else Err("Unsupported output format: " + outputFormat)
  }

  /** Case does not matter to the dispatch. */
  lemma SelectFormatIgnoresCase(outputFormat: string)
    ensures SelectFormat(Lower(outputFormat)) == SelectFormat(outputFormat)
            || (SelectFormat(outputFormat).Err? && SelectFormat(Lower(outputFormat)).Err?)
  {
    LowerIdempotent(outputFormat);
  }
}
