/** The integer part of the cross-platform analytics
    (cross_platform_analytics.py): delivery pipelines that follow one Jira
    issue through its GitHub issues, pull requests and commits, their stage
    and timeline, and the developer and team counters. Rates, means and
    quality scores are floating point and are not modelled. */
module Analytics {
  import opened Wrappers
  import opened Text
  import opened Seqs
  import opened Calendar
  import opened Models
  import opened JiraKeys
  import opened GitHub

  datatype DeliveryStage = Planning | Development | Review | Integration | Deployment | Completed

  /** Position of a stage along the pipeline. */
  function StageRank(s: DeliveryStage): nat {
    match s
    case Planning => 0
    case Development => 1
    case Review => 2
    case Integration => 3
    case Deployment => 4
    case Completed => 5
  }

  /** `DeliveryPipeline`; times are microseconds, durations whole days. */
  datatype DeliveryPipeline = DeliveryPipeline(
    jiraIssue: Issue,
    githubIssues: seq<GitHubIssue>,
    pullRequests: seq<GitHubPullRequest>,
    commits: seq<GitHubCommit>,
    planningStart: Option<int>,
    developmentStart: Option<int>,
    reviewStart: Option<int>,
    integrationDate: Option<int>,
    deploymentDate: Option<int>,
    completionDate: Option<int>,
    planningTime: Option<int>,
    developmentTime: Option<int>,
    reviewTime: Option<int>,
    totalCycleTime: Option<int>,
    defectsFound: int,
    reworkCommits: int,
    reviewIterations: int,
    developers: seq<string>,
    reviewers: seq<string>)

  /** A pipeline with every optional field at its default. */
  function EmptyPipeline(issue: Issue): DeliveryPipeline {
    DeliveryPipeline(issue, [], [], [], None, None, None, None, None, None,
                     None, None, None, None, 0, 0, 0, [], [])
  }

  /** The date that marks the start of a stage, `None` for planning. */
  function StageDate(p: DeliveryPipeline, s: DeliveryStage): Option<int> {
    match s
    case Planning => None
    case Development => p.developmentStart
    case Review => p.reviewStart
    case Integration => p.integrationDate
    case Deployment => p.deploymentDate
    case Completed => p.completionDate
  }

  /** `current_stage`: the latest stage whose date is set. */
  function CurrentStage(p: DeliveryPipeline): (r: DeliveryStage)
    ensures forall s :: StageDate(p, s).Some? ==> StageRank(s) <= StageRank(r)
    ensures r == Planning || StageDate(p, r).Some?
  {
    if p.completionDate.Some? then Completed
    else if p.deploymentDate.Some? then Deployment
    else if p.integrationDate.Some? then Integration
    else if p.reviewStart.Some? then Review
    else if p.developmentStart.Some? then Development
    else Planning
  }

  /** Setting one more stage date never moves the pipeline back. */
  lemma StageMonotone(p: DeliveryPipeline, q: DeliveryPipeline)
    requires forall s :: StageDate(p, s).Some? ==> StageDate(q, s).Some?
    ensures StageRank(CurrentStage(p)) <= StageRank(CurrentStage(q))
  {
    var s := CurrentStage(p);
    if s != Planning {
      assert StageDate(q, s).Some?;
    }
  }

  // ---------------------------------------------------------------------
  // Gathering a pipeline

  /** The items whose text names the Jira key as a whole word. */
  function IssuesNaming(key: string, issues: seq<GitHubIssue>): (r: seq<GitHubIssue>)
    ensures forall i :: i in r <==> i in issues && key in ExtractJiraKeys(TitleAndBody(i.title, i.body))
  {
    Filter(issues, (i: GitHubIssue) => key in ExtractJiraKeys(TitleAndBody(i.title, i.body)))
  }

  function PullsNaming(key: string, prs: seq<GitHubPullRequest>): (r: seq<GitHubPullRequest>)
    ensures forall pr :: pr in r <==> pr in prs && key in ExtractJiraKeys(TitleAndBody(pr.title, pr.body))
  {
    Filter(prs, (pr: GitHubPullRequest) => key in ExtractJiraKeys(TitleAndBody(pr.title, pr.body)))
  }

  function CommitsNaming(key: string, commits: seq<GitHubCommit>): (r: seq<GitHubCommit>)
    ensures forall c :: c in r <==> c in commits && key in ExtractJiraKeys(c.message)
  {
    Filter(commits, (c: GitHubCommit) => key in ExtractJiraKeys(c.message))
  }

  /** The gathering step of `analyze_delivery_pipelines` for one Jira issue,
      over everything fetched from the repositories: planning starts at the
      issue's creation, and an item joins the pipeline when its text names
      the issue's key as a whole word. */
  function GatherPipeline(issue: Issue, issues: seq<GitHubIssue>, prs: seq<GitHubPullRequest>,
                          commits: seq<GitHubCommit>): (r: DeliveryPipeline)
    ensures r.jiraIssue == issue && r.planningStart == Some(issue.created)
    ensures forall c :: c in r.commits <==> c in commits && exists i :: BoundedKeyAt(c.message, i, issue.key)
    ensures forall pr :: pr in r.pullRequests <==>
              pr in prs && exists i :: BoundedKeyAt(TitleAndBody(pr.title, pr.body), i, issue.key)
    ensures forall g :: g in r.githubIssues <==>
              g in issues && exists i :: BoundedKeyAt(TitleAndBody(g.title, g.body), i, issue.key)
  {
    EmptyPipeline(issue).(planningStart := Some(issue.created),
                          githubIssues := IssuesNaming(issue.key, issues),
                          pullRequests := PullsNaming(issue.key, prs),
                          commits := CommitsNaming(issue.key, commits))
  }

  // ---------------------------------------------------------------------
  // `_calculate_pipeline_metrics`

  function AuthoredDates(commits: seq<GitHubCommit>): (r: seq<int>)
    ensures |r| == |commits|
    ensures forall k | 0 <= k < |commits| :: r[k] == commits[k].authoredDate
  {
    if |commits| == 0 then [] else [commits[0].authoredDate] + AuthoredDates(commits[1..])
  }

  function Authors(commits: seq<GitHubCommit>): (r: seq<string>)
    ensures |r| == |commits|
    ensures forall k | 0 <= k < |commits| :: r[k] == commits[k].author
  {
    if |commits| == 0 then [] else [commits[0].author] + Authors(commits[1..])
  }

  function CreatedDates(prs: seq<GitHubPullRequest>): (r: seq<int>)
    ensures |r| == |prs|
    ensures forall k | 0 <= k < |prs| :: r[k] == prs[k].createdAt
  {
    if |prs| == 0 then [] else [prs[0].createdAt] + CreatedDates(prs[1..])
  }

  /** The merge times of pull requests that all have one. */
  function MergedDates(prs: seq<GitHubPullRequest>): (r: seq<int>)
    requires forall k | 0 <= k < |prs| :: prs[k].mergedAt.Some?
    ensures |r| == |prs|
    ensures forall k | 0 <= k < |prs| :: r[k] == prs[k].mergedAt.value
  {
    if |prs| == 0 then [] else [prs[0].mergedAt.value] + MergedDates(prs[1..])
  }

  /** Every reviewer of every pull request, repetitions included. */
  function AllReviewers(prs: seq<GitHubPullRequest>): (r: seq<string>)
    ensures forall x :: x in r <==> exists k | 0 <= k < |prs| :: x in prs[k].reviewers
  {
    if |prs| == 0 then []
    else
      var rest := AllReviewers(prs[1..]);
      assert forall k | 1 <= k < |prs| :: prs[k] == prs[1..][k - 1];
      prs[0].reviewers + rest
  }

  function ReviewComments(prs: seq<GitHubPullRequest>): (r: seq<int>)
    ensures |r| == |prs|
    ensures forall k | 0 <= k < |prs| :: r[k] == prs[k].reviewComments
  {
    if |prs| == 0 then [] else [prs[0].reviewComments] + ReviewComments(prs[1..])
  }

  const ReworkWords: seq<string> := ["fix", "bug", "hotfix", "patch"]

  /** A commit whose lowercased message contains one of the rework words. */
  predicate IsRework(c: GitHubCommit) {
    exists w | w in ReworkWords :: Contains(Lower(c.message), w)
  }

  /** An issue with a label that lowercases to "bug" exactly. */
  predicate HasBugLabel(i: GitHubIssue) {
    exists l | l in i.labels :: Lower(l) == "bug"
  }

  /** `WholeDays` when both ends are set, `otherwise` if not. */
  function Span(from: Option<int>, to: Option<int>, otherwise: Option<int>): (r: Option<int>)
    ensures from.Some? && to.Some? ==> r.Some? && r.value * MicrosPerDay <= to.value - from.value < (r.value + 1) * MicrosPerDay
    ensures !(from.Some? && to.Some?) ==> r == otherwise
  {
    if from.Some? && to.Some? then Some(WholeDays(to.value, from.value)) else otherwise
  }

  /** The timeline dates of `_calculate_pipeline_metrics`. */
  function WithTimeline(p: DeliveryPipeline): (r: DeliveryPipeline)
    ensures |p.commits| > 0 ==> r.developmentStart == Some(Min(AuthoredDates(p.commits)))
    ensures |p.commits| == 0 ==> r.developmentStart == p.developmentStart && r.developers == p.developers
    ensures |p.commits| > 0 ==> r.developers == Dedup(Authors(p.commits))
    ensures |p.pullRequests| > 0 ==> r.reviewStart == Some(Min(CreatedDates(p.pullRequests)))
    ensures |p.pullRequests| > 0 ==> r.reviewers == Dedup(AllReviewers(p.pullRequests))
    ensures |p.pullRequests| == 0 ==> r.reviewStart == p.reviewStart && r.reviewers == p.reviewers
    ensures |Filter(p.pullRequests, IsMerged)| > 0 ==> r.integrationDate == Some(Min(MergedDates(Filter(p.pullRequests, IsMerged))))
    ensures |Filter(p.pullRequests, IsMerged)| == 0 ==> r.integrationDate == p.integrationDate
    ensures r.completionDate == (if p.jiraIssue.resolved.Some? then p.jiraIssue.resolved else p.completionDate)
    ensures r.(developmentStart := p.developmentStart, developers := p.developers, reviewStart := p.reviewStart,
               reviewers := p.reviewers, integrationDate := p.integrationDate, completionDate := p.completionDate) == p
  {
    var p1 := if |p.commits| > 0 then
                p.(developmentStart := Some(Min(AuthoredDates(p.commits))), developers := Dedup(Authors(p.commits)))
              else p;
    var p2 := if |p.pullRequests| > 0 then
                p1.(reviewStart := Some(Min(CreatedDates(p.pullRequests))), reviewers := Dedup(AllReviewers(p.pullRequests)))
              else p1;
    var merged := Filter(p.pullRequests, IsMerged);
    var p3 := if |merged| > 0 then p2.(integrationDate := Some(Min(MergedDates(merged)))) else p2;
    if p.jiraIssue.resolved.Some? then p3.(completionDate := p.jiraIssue.resolved) else p3
  }

  /** `n` is the number of whole days from `from` to `to`, rounded down. */
  predicate FloorDays(n: Option<int>, from: int, to: int) {
    n.Some? && n.value * MicrosPerDay <= to - from < (n.value + 1) * MicrosPerDay
  }

  /** `_calculate_pipeline_metrics`: the timeline, the four whole-day spans
      between set dates, and the quality counters. */
  function CalculatePipelineMetrics(p: DeliveryPipeline): (r: DeliveryPipeline)
    ensures var t := WithTimeline(p);
      && (t.planningStart.Some? && t.developmentStart.Some? ==>
            FloorDays(r.planningTime, t.planningStart.value, t.developmentStart.value))
      && (t.developmentStart.Some? && t.reviewStart.Some? ==>
            FloorDays(r.developmentTime, t.developmentStart.value, t.reviewStart.value))
      && (t.reviewStart.Some? && t.integrationDate.Some? ==>
            FloorDays(r.reviewTime, t.reviewStart.value, t.integrationDate.value))
      && (t.planningStart.Some? && t.completionDate.Some? ==>
            FloorDays(r.totalCycleTime, t.planningStart.value, t.completionDate.value))
    ensures var t := WithTimeline(p);
      && r.planningTime == Span(t.planningStart, t.developmentStart, p.planningTime)
      && r.developmentTime == Span(t.developmentStart, t.reviewStart, p.developmentTime)
      && r.reviewTime == Span(t.reviewStart, t.integrationDate, p.reviewTime)
      && r.totalCycleTime == Span(t.planningStart, t.completionDate, p.totalCycleTime)
      && r.(planningTime := t.planningTime, developmentTime := t.developmentTime, reviewTime := t.reviewTime,
            totalCycleTime := t.totalCycleTime, reworkCommits := t.reworkCommits,
            reviewIterations := t.reviewIterations, defectsFound := t.defectsFound) == t
    ensures r.reworkCommits == CountWhere(p.commits, IsRework) <= |p.commits|
    ensures r.reviewIterations == Sum(ReviewComments(p.pullRequests))
    ensures r.defectsFound == CountWhere(p.githubIssues, HasBugLabel)
  {
    var t := WithTimeline(p);
    t.(planningTime := Span(t.planningStart, t.developmentStart, p.planningTime),
       developmentTime := Span(t.developmentStart, t.reviewStart, p.developmentTime),
       reviewTime := Span(t.reviewStart, t.integrationDate, p.reviewTime),
       totalCycleTime := Span(t.planningStart, t.completionDate, p.totalCycleTime),
       reworkCommits := CountWhere(p.commits, IsRework),
       reviewIterations := Sum(ReviewComments(p.pullRequests)),
       defectsFound := CountWhere(p.githubIssues, HasBugLabel))
  }

  /** The least authored date belongs to a commit and bounds them all. */
  lemma FirstAuthored(commits: seq<GitHubCommit>)
    requires |commits| > 0
    ensures var m := Min(AuthoredDates(commits));
      && (exists c | c in commits :: c.authoredDate == m)
      && (forall c | c in commits :: m <= c.authoredDate)
  {
    var dates := AuthoredDates(commits);
    var j :| 0 <= j < |dates| && dates[j] == Min(dates);
    assert commits[j] in commits;
    forall c | c in commits ensures Min(dates) <= c.authoredDate {
      var i :| 0 <= i < |commits| && commits[i] == c;
      assert dates[i] == c.authoredDate;
    }
  }

  /** The least creation date belongs to a pull request and bounds them all. */
  lemma FirstCreated(prs: seq<GitHubPullRequest>)
    requires |prs| > 0
    ensures var m := Min(CreatedDates(prs));
      && (exists pr | pr in prs :: pr.createdAt == m)
      && (forall pr | pr in prs :: m <= pr.createdAt)
  {
    var dates := CreatedDates(prs);
    var j :| 0 <= j < |dates| && dates[j] == Min(dates);
    assert prs[j] in prs;
    forall pr | pr in prs ensures Min(dates) <= pr.createdAt {
      var i :| 0 <= i < |prs| && prs[i] == pr;
      assert dates[i] == pr.createdAt;
    }
  }

  /** Development starts at the first authored commit and review at the
      first pull request; without commits or pull requests the date is left
      as it was. */
  lemma TimelineIsEarliest(p: DeliveryPipeline)
    ensures var t := WithTimeline(p);
      |p.commits| > 0 ==>
        && t.developmentStart.Some?
        && (exists c | c in p.commits :: c.authoredDate == t.developmentStart.value)
        && (forall c | c in p.commits :: t.developmentStart.value <= c.authoredDate)
    ensures var t := WithTimeline(p);
      |p.pullRequests| > 0 ==>
        && t.reviewStart.Some?
        && (exists pr | pr in p.pullRequests :: pr.createdAt == t.reviewStart.value)
        && (forall pr | pr in p.pullRequests :: t.reviewStart.value <= pr.createdAt)
  {
    if |p.commits| > 0 {
      FirstAuthored(p.commits);
    }
    if |p.pullRequests| > 0 {
      FirstCreated(p.pullRequests);
    }
  }

  /** The developers are the commit authors, each once. */
  lemma DevelopersAreAuthors(p: DeliveryPipeline)
    requires |p.commits| > 0
    ensures NoDuplicates(WithTimeline(p).developers)
    ensures forall x :: x in WithTimeline(p).developers <==> exists c | c in p.commits :: c.author == x
  {
    var authors := Authors(p.commits);
    forall x ensures x in authors <==> exists c | c in p.commits :: c.author == x {
      if x in authors {
        var j :| 0 <= j < |authors| && authors[j] == x;
        assert p.commits[j] in p.commits;
      }
      if c :| c in p.commits && c.author == x {
        var j :| 0 <= j < |p.commits| && p.commits[j] == c;
        assert authors[j] == x;
      }
    }
  }

  /** Integration starts at the first merge among the pipeline's pull
      requests, and stays unset when none is merged. */
  lemma IntegrationIsFirstMerge(p: DeliveryPipeline)
    ensures var t := WithTimeline(p);
      && ((forall pr | pr in p.pullRequests :: pr.mergedAt.None?) ==> t.integrationDate == p.integrationDate)
      && ((exists pr | pr in p.pullRequests :: pr.mergedAt.Some?) ==>
            && t.integrationDate.Some?
            && (exists pr | pr in p.pullRequests :: pr.mergedAt == t.integrationDate)
            && (forall pr | pr in p.pullRequests && pr.mergedAt.Some? :: t.integrationDate.value <= pr.mergedAt.value))
  {
    var merged := Filter(p.pullRequests, IsMerged);
    if exists pr | pr in p.pullRequests :: pr.mergedAt.Some? {
      var pr :| pr in p.pullRequests && pr.mergedAt.Some?;
      assert pr in merged;
      FirstMerge(merged);
    } else {
      FilterNone(p.pullRequests, IsMerged);
    }
  }

  /** The least merge time of merged pull requests belongs to one of them
      and bounds all of them. */
  lemma FirstMerge(merged: seq<GitHubPullRequest>)
    requires |merged| > 0 && forall k | 0 <= k < |merged| :: merged[k].mergedAt.Some?
    ensures var m := Min(MergedDates(merged));
      && (exists pr | pr in merged :: pr.mergedAt == Some(m))
      && (forall pr | pr in merged :: m <= pr.mergedAt.value)
  {
    var dates := MergedDates(merged);
    var j :| 0 <= j < |dates| && dates[j] == Min(dates);
    assert merged[j] in merged;
    forall pr | pr in merged ensures Min(dates) <= pr.mergedAt.value {
      var i :| 0 <= i < |merged| && merged[i] == pr;
      assert dates[i] == pr.mergedAt.value;
    }
  }

  /** "hotfix" adds nothing to the rework words: it contains "fix". */
  lemma HotfixIsRedundant(c: GitHubCommit)
    ensures IsRework(c) <==> Contains(Lower(c.message), "fix") || Contains(Lower(c.message), "bug")
                              || Contains(Lower(c.message), "patch")
  {
    var m := Lower(c.message);
    if Contains(m, "hotfix") {
      var i :| 0 <= i <= |m| - 6 && OccursAt(m, "hotfix", i);
      assert m[i + 3..i + 6] == m[i..i + 6][3..6] == "fix";
      assert OccursAt(m, "fix", i + 3);
    }
    assert "fix" in ReworkWords && "bug" in ReworkWords && "patch" in ReworkWords;
  }

  /** The gathered pipeline's stage after its metrics are computed: done
      when the Jira issue is resolved, otherwise as far as its GitHub items
      reach. */
  lemma GatheredStage(issue: Issue, issues: seq<GitHubIssue>, prs: seq<GitHubPullRequest>,
                      commits: seq<GitHubCommit>)
    ensures var p := GatherPipeline(issue, issues, prs, commits);
      var s := CurrentStage(CalculatePipelineMetrics(p));
      && (s == Completed <==> issue.resolved.Some?)
      && (s == Integration <==> issue.resolved.None? && exists pr | pr in p.pullRequests :: pr.mergedAt.Some?)
      && (s == Review ==> |p.pullRequests| > 0)
      && (s == Planning <==> issue.resolved.None? && |p.pullRequests| == 0 && |p.commits| == 0)
  {
    var p := GatherPipeline(issue, issues, prs, commits);
    IntegrationIsFirstMerge(p);
    var t := WithTimeline(p);
    assert CalculatePipelineMetrics(p).completionDate == t.completionDate;
    assert CalculatePipelineMetrics(p).integrationDate == t.integrationDate;
    assert CalculatePipelineMetrics(p).reviewStart == t.reviewStart;
    assert CalculatePipelineMetrics(p).developmentStart == t.developmentStart;
    assert CalculatePipelineMetrics(p).deploymentDate == None;
  }
}
