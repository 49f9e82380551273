/** The integer counters of `calculate_developer_metrics` and
    `calculate_team_metrics` (cross_platform_analytics.py). The developer
    dict is a sequence of entries in insertion order; each update of the
    source is a credit of a vector of counter increments to one name. */
module TeamStats {
  import opened Wrappers
  import opened Seqs
  import opened Models
  import opened GitHub
  import opened Analytics

  /** The integer counters of one developer. */
  datatype Tally = Tally(
    issuesAssigned: int,
    issuesCompleted: int,
    commits: int,
    linesAdded: int,
    linesDeleted: int,
    prsCreated: int,
    prsReviewed: int,
    prsMerged: int)

  function NoTally(): Tally { Tally(0, 0, 0, 0, 0, 0, 0, 0) }

  function Plus(a: Tally, b: Tally): Tally {
    Tally(a.issuesAssigned + b.issuesAssigned, a.issuesCompleted + b.issuesCompleted,
          a.commits + b.commits, a.linesAdded + b.linesAdded, a.linesDeleted + b.linesDeleted,
          a.prsCreated + b.prsCreated, a.prsReviewed + b.prsReviewed, a.prsMerged + b.prsMerged)
  }

  lemma PlusZero(x: Tally)
    ensures Plus(NoTally(), x) == x && Plus(x, NoTally()) == x
  {}

  lemma PlusAssoc(a: Tally, b: Tally, c: Tally)
    ensures Plus(a, Plus(b, c)) == Plus(Plus(a, b), c)
  {}

  /** `DeveloperMetrics`, less its floating-point fields. */
  datatype DeveloperMetrics = DeveloperMetrics(developer: string, tally: Tally, deliveryPipelinesCompleted: int)

  function Names(devs: seq<DeveloperMetrics>): (r: seq<string>)
    ensures |r| == |devs|
    ensures forall k | 0 <= k < |devs| :: r[k] == devs[k].developer
  {
    if |devs| == 0 then [] else [devs[0].developer] + Names(devs[1..])
  }

  /** The counters summed over all developers. */
  function Total(devs: seq<DeveloperMetrics>): Tally {
    if |devs| == 0 then NoTally() else Plus(devs[0].tally, Total(devs[1..]))
  }

  /** The counters of `name`, zero when it has no entry. */
  function TallyOf(devs: seq<DeveloperMetrics>, name: string): Tally {
    if |devs| == 0 then NoTally()
    else if devs[0].developer == name then devs[0].tally
    else TallyOf(devs[1..], name)
  }

  /** Credits the increments `d` to the developer called `name`: a name not
      seen before gets a fresh record at the end, a known one is updated in
      place. */
  function Credit(devs: seq<DeveloperMetrics>, name: string, d: Tally): (r: seq<DeveloperMetrics>)
    ensures forall x :: x in Names(r) <==> x in Names(devs) || x == name
    ensures NoDuplicates(Names(devs)) ==> NoDuplicates(Names(r))
    ensures Total(r) == Plus(Total(devs), d)
  {
    if |devs| == 0 then [DeveloperMetrics(name, d, 0)]
    else if devs[0].developer == name then
      var r := [devs[0].(tally := Plus(devs[0].tally, d))] + devs[1..];
      assert r[1..] == devs[1..];
      assert Names(r) == Names(devs);
      r
    else
      var rest := Credit(devs[1..], name, d);
      var r := [devs[0]] + rest;
      assert r[1..] == rest;
      assert Names(r) == [devs[0].developer] + Names(rest);
      assert Names(devs) == [devs[0].developer] + Names(devs[1..]);
      NoDuplicatesCons(devs[0].developer, Names(devs[1..]));
      NoDuplicatesCons(devs[0].developer, Names(rest));
      PlusAssoc(devs[0].tally, Total(devs[1..]), d);
      r
  }

  /** A credit reaches its own name and no other. */
  lemma {:induction false} CreditTallyOf(devs: seq<DeveloperMetrics>, name: string, d: Tally, x: string)
    ensures TallyOf(Credit(devs, name, d), x) == if x == name then Plus(TallyOf(devs, x), d) else TallyOf(devs, x)
  {
    if |devs| > 0 && devs[0].developer != name {
      CreditTallyOf(devs[1..], name, d, x);
      assert ([devs[0]] + Credit(devs[1..], name, d))[1..] == Credit(devs[1..], name, d);
    } else if |devs| > 0 {
      assert ([devs[0].(tally := Plus(devs[0].tally, d))] + devs[1..])[1..] == devs[1..];
    }
  }

  /** A credit: who receives it and the increments. */
  datatype Event = Event(name: string, delta: Tally)

  function EventNames(evs: seq<Event>): (r: seq<string>)
    ensures |r| == |evs|
    ensures forall k | 0 <= k < |evs| :: r[k] == evs[k].name
  {
    if |evs| == 0 then [] else [evs[0].name] + EventNames(evs[1..])
  }

  function SumDeltas(evs: seq<Event>): Tally {
    if |evs| == 0 then NoTally() else Plus(evs[0].delta, SumDeltas(evs[1..]))
  }

  lemma {:induction false} SumDeltasConcat(a: seq<Event>, b: seq<Event>)
    ensures SumDeltas(a + b) == Plus(SumDeltas(a), SumDeltas(b))
  {
    if |a| > 0 {
      assert (a + b)[1..] == a[1..] + b;
      SumDeltasConcat(a[1..], b);
      PlusAssoc(a[0].delta, SumDeltas(a[1..]), SumDeltas(b));
    } else {
      assert a + b == b;
      PlusZero(SumDeltas(b));
    }
  }

  /** The credits in order, starting from `devs`. */
  function ApplyAll(devs: seq<DeveloperMetrics>, evs: seq<Event>): (r: seq<DeveloperMetrics>)
    ensures Total(r) == Plus(Total(devs), SumDeltas(evs))
    ensures NoDuplicates(Names(devs)) ==> NoDuplicates(Names(r))
    ensures forall x :: x in Names(r) <==> x in Names(devs) || x in EventNames(evs)
    decreases |evs|
  {
    if |evs| == 0 then
      PlusZero(Total(devs));
      devs
    else
      var next := Credit(devs, evs[0].name, evs[0].delta);
      assert EventNames(evs) == [evs[0].name] + EventNames(evs[1..]);
      PlusAssoc(Total(devs), evs[0].delta, SumDeltas(evs[1..]));
      ApplyAll(next, evs[1..])
  }

  // ---------------------------------------------------------------------
  // The credits of one pipeline, in the order the source makes them

  /** The assignee's credit: one issue, and one completed if the pipeline is. */
  function AssigneeCredit(p: DeliveryPipeline): Tally {
    Tally(1, if p.completionDate.Some? then 1 else 0, 0, 0, 0, 0, 0, 0)
  }

  function CommitCredit(c: GitHubCommit): Tally {
    Tally(0, 0, 1, c.additions, c.deletions, 0, 0, 0)
  }

  /** The author's credit for a pull request. */
  function PullCredit(pr: GitHubPullRequest): Tally {
    Tally(0, 0, 0, 0, 0, 1, 0, if pr.mergedAt.Some? then 1 else 0)
  }

  function ReviewCredit(): Tally { Tally(0, 0, 0, 0, 0, 0, 1, 0) }

  function AssigneeEvents(p: DeliveryPipeline): seq<Event> {
    if p.jiraIssue.assignee.Some? then [Event(p.jiraIssue.assignee.value.displayName, AssigneeCredit(p))]
    else []
  }

  function CommitEvents(commits: seq<GitHubCommit>): seq<Event> {
    if |commits| == 0 then []
    else [Event(commits[0].author, CommitCredit(commits[0]))] + CommitEvents(commits[1..])
  }

  function ReviewerEvents(reviewers: seq<string>): seq<Event> {
    if |reviewers| == 0 then []
    else [Event(reviewers[0], ReviewCredit())] + ReviewerEvents(reviewers[1..])
  }

  /** The author's credit for each pull request, then one per listed
      reviewer. */
  function PullEvents(prs: seq<GitHubPullRequest>): seq<Event> {
    if |prs| == 0 then []
    else [Event(prs[0].user, PullCredit(prs[0]))] + (ReviewerEvents(prs[0].reviewers) + PullEvents(prs[1..]))
  }

  function PipelineEvents(p: DeliveryPipeline): seq<Event> {
    AssigneeEvents(p) + (CommitEvents(p.commits) + PullEvents(p.pullRequests))
  }

  function AllEvents(ps: seq<DeliveryPipeline>): seq<Event> {
    if |ps| == 0 then [] else PipelineEvents(ps[0]) + AllEvents(ps[1..])
  }

  // ---------------------------------------------------------------------
  // The reference counts

  function Additions(commits: seq<GitHubCommit>): int {
    if |commits| == 0 then 0 else commits[0].additions + Additions(commits[1..])
  }

  function Deletions(commits: seq<GitHubCommit>): int {
    if |commits| == 0 then 0 else commits[0].deletions + Deletions(commits[1..])
  }

  /** What one pipeline should add to the developer counters, counted
      directly from its contents. */
  function Expected(p: DeliveryPipeline): Tally {
    var hasAssignee := p.jiraIssue.assignee.Some?;
    Tally(if hasAssignee then 1 else 0,
          if hasAssignee && p.completionDate.Some? then 1 else 0,
          |p.commits|, Additions(p.commits), Deletions(p.commits),
          |p.pullRequests|, |AllReviewers(p.pullRequests)|, CountWhere(p.pullRequests, IsMerged))
  }

  function ExpectedAll(ps: seq<DeliveryPipeline>): Tally {
    if |ps| == 0 then NoTally() else Plus(Expected(ps[0]), ExpectedAll(ps[1..]))
  }

  /** A single credit sums to its own increments. */
  lemma SumDeltasOne(e: Event, rest: seq<Event>)
    ensures SumDeltas([e] + rest) == Plus(e.delta, SumDeltas(rest))
  {
    assert ([e] + rest)[1..] == rest;
  }

  lemma {:induction false} CommitEventsSum(commits: seq<GitHubCommit>)
    ensures SumDeltas(CommitEvents(commits)) == Tally(0, 0, |commits|, Additions(commits), Deletions(commits), 0, 0, 0)
  {
    if |commits| > 0 {
      CommitEventsSum(commits[1..]);
      SumDeltasOne(Event(commits[0].author, CommitCredit(commits[0])), CommitEvents(commits[1..]));
    } else {
      assert CommitEvents(commits) == [];
    }
  }

  lemma {:induction false} ReviewerEventsSum(reviewers: seq<string>)
    ensures SumDeltas(ReviewerEvents(reviewers)) == Tally(0, 0, 0, 0, 0, 0, |reviewers|, 0)
  {
    if |reviewers| > 0 {
      ReviewerEventsSum(reviewers[1..]);
      SumDeltasOne(Event(reviewers[0], ReviewCredit()), ReviewerEvents(reviewers[1..]));
    } else {
      assert ReviewerEvents(reviewers) == [];
    }
  }

  /** The pull-request credits sum to the pull requests, their listed
      reviewers and the merged ones. */
  lemma {:induction false} PullEventsSum(prs: seq<GitHubPullRequest>)
    ensures SumDeltas(PullEvents(prs)) == Tally(0, 0, 0, 0, 0, |prs|, |AllReviewers(prs)|, CountWhere(prs, IsMerged))
  {
    if |prs| > 0 {
      var pr := prs[0];
      var tail := ReviewerEvents(pr.reviewers) + PullEvents(prs[1..]);
      PullEventsSum(prs[1..]);
      ReviewerEventsSum(pr.reviewers);
      SumDeltasConcat(ReviewerEvents(pr.reviewers), PullEvents(prs[1..]));
      SumDeltasOne(Event(pr.user, PullCredit(pr)), tail);
      CountWhereCons(prs, IsMerged);
      assert AllReviewers(prs) == pr.reviewers + AllReviewers(prs[1..]);
    } else {
      assert PullEvents(prs) == [];
    }
  }

  lemma PlusParts(a: int, b: int, c: int, d: int, e: int, f: int)
    ensures Plus(Tally(0, 0, a, b, c, 0, 0, 0), Tally(0, 0, 0, 0, 0, d, e, f)) == Tally(0, 0, a, b, c, d, e, f)
  {}

  lemma PlusHead(a: int, b: int, c: int, d: int, e: int, f: int, g: int, h: int)
    ensures Plus(Tally(a, b, 0, 0, 0, 0, 0, 0), Tally(0, 0, c, d, e, f, g, h)) == Tally(a, b, c, d, e, f, g, h)
  {}

  lemma AssigneeEventsSum(p: DeliveryPipeline)
    ensures SumDeltas(AssigneeEvents(p))
            == Tally(if p.jiraIssue.assignee.Some? then 1 else 0,
                     if p.jiraIssue.assignee.Some? && p.completionDate.Some? then 1 else 0, 0, 0, 0, 0, 0, 0)
  {
    if p.jiraIssue.assignee.Some? {
      SumDeltasOne(Event(p.jiraIssue.assignee.value.displayName, AssigneeCredit(p)), []);
    } else {
      assert AssigneeEvents(p) == [];
    }
  }

  /** One pipeline's credits sum to its expected counters. */
  lemma PipelineEventsSum(p: DeliveryPipeline)
    ensures SumDeltas(PipelineEvents(p)) == Expected(p)
  {
    var ca, cc, cp := AssigneeEvents(p), CommitEvents(p.commits), PullEvents(p.pullRequests);
    AssigneeEventsSum(p);
    CommitEventsSum(p.commits);
    PullEventsSum(p.pullRequests);
    SumDeltasConcat(cc, cp);
    SumDeltasConcat(ca, cc + cp);
    var work := Tally(0, 0, |p.commits|, Additions(p.commits), Deletions(p.commits),
                      |p.pullRequests|, |AllReviewers(p.pullRequests)|, CountWhere(p.pullRequests, IsMerged));
    PlusParts(|p.commits|, Additions(p.commits), Deletions(p.commits),
              |p.pullRequests|, |AllReviewers(p.pullRequests)|, CountWhere(p.pullRequests, IsMerged));
    assert Plus(SumDeltas(cc), SumDeltas(cp)) == work;
    assert SumDeltas(PipelineEvents(p)) == Plus(SumDeltas(ca), work);
    var hasAssignee := p.jiraIssue.assignee.Some?;
    PlusHead(if hasAssignee then 1 else 0, if hasAssignee && p.completionDate.Some? then 1 else 0,
             |p.commits|, Additions(p.commits), Deletions(p.commits),
             |p.pullRequests|, |AllReviewers(p.pullRequests)|, CountWhere(p.pullRequests, IsMerged));
  }

  lemma {:induction false} AllEventsSum(ps: seq<DeliveryPipeline>)
    ensures SumDeltas(AllEvents(ps)) == ExpectedAll(ps)
  {
    if |ps| > 0 {
      AllEventsSum(ps[1..]);
      PipelineEventsSum(ps[0]);
      SumDeltasConcat(PipelineEvents(ps[0]), AllEvents(ps[1..]));
    } else {
      assert AllEvents(ps) == [];
    }
  }

  // ---------------------------------------------------------------------
  // `calculate_developer_metrics` and `calculate_team_metrics`

  /** A completed pipeline the developer worked on: assigned the Jira issue
      or authored one of its commits. */
  predicate WorkedOn(p: DeliveryPipeline, name: string) {
    p.completionDate.Some?
    && ((p.jiraIssue.assignee.Some? && p.jiraIssue.assignee.value.displayName == name)
        || exists c | c in p.commits :: c.author == name)
  }

  function CountWorkedOn(ps: seq<DeliveryPipeline>, name: string): nat {
    if |ps| == 0 then 0 else (if WorkedOn(ps[0], name) then 1 else 0) + CountWorkedOn(ps[1..], name)
  }

  /** The second pass: `delivery_pipelines_completed` for every entry. */
  function WithDeliveries(devs: seq<DeveloperMetrics>, ps: seq<DeliveryPipeline>): (r: seq<DeveloperMetrics>)
    ensures |r| == |devs|
    ensures forall k | 0 <= k < |devs| :: r[k] == devs[k].(deliveryPipelinesCompleted := CountWorkedOn(ps, devs[k].developer))
  {
    if |devs| == 0 then []
    else [devs[0].(deliveryPipelinesCompleted := CountWorkedOn(ps, devs[0].developer))] + WithDeliveries(devs[1..], ps)
  }

  lemma {:induction false} WithDeliveriesKeeps(devs: seq<DeveloperMetrics>, ps: seq<DeliveryPipeline>)
    ensures Names(WithDeliveries(devs, ps)) == Names(devs)
    ensures Total(WithDeliveries(devs, ps)) == Total(devs)
  {
    if |devs| > 0 {
      WithDeliveriesKeeps(devs[1..], ps);
      assert WithDeliveries(devs, ps)[1..] == WithDeliveries(devs[1..], ps);
    }
  }

  /** `calculate_developer_metrics`, less the floating-point fields. */
  function CalculateDeveloperMetrics(ps: seq<DeliveryPipeline>): (r: seq<DeveloperMetrics>)
    ensures NoDuplicates(Names(r))
    ensures Total(r) == ExpectedAll(ps)
    ensures forall k | 0 <= k < |r| :: r[k].deliveryPipelinesCompleted == CountWorkedOn(ps, r[k].developer)
  {
    var devs := ApplyAll([], AllEvents(ps));
    AllEventsSum(ps);
    WithDeliveriesKeeps(devs, ps);
    assert Total([]) == NoTally();
    WithDeliveries(devs, ps)
  }

  /** Every pull request of every pipeline. */
  function AllPulls(ps: seq<DeliveryPipeline>): seq<GitHubPullRequest> {
    if |ps| == 0 then [] else ps[0].pullRequests + AllPulls(ps[1..])
  }

  /** `TeamMetrics`, less its floating-point fields. */
  datatype TeamMetrics = TeamMetrics(
    teamName: string,
    periodStart: int,
    periodEnd: int,
    issuesCompleted: int,
    pullRequestsMerged: int,
    developers: seq<DeveloperMetrics>,
    pipelines: seq<DeliveryPipeline>)

  predicate IsCompleted(p: DeliveryPipeline) { p.completionDate.Some? }

  /** `calculate_team_metrics`: completed pipelines, merged pull requests,
      and the developer metrics. */
  function CalculateTeamMetrics(teamName: string, ps: seq<DeliveryPipeline>, start: int, end: int): (r: TeamMetrics)
    ensures r.issuesCompleted == CountWhere(ps, IsCompleted) <= |ps|
    ensures r.pullRequestsMerged == CountWhere(AllPulls(ps), IsMerged)
    ensures r.pipelines == ps && r.developers == CalculateDeveloperMetrics(ps)
  {
    TeamMetrics(teamName, start, end, CountWhere(ps, IsCompleted), CountWhere(AllPulls(ps), IsMerged),
                CalculateDeveloperMetrics(ps), ps)
  }

  lemma {:induction false} MergedOverPipelines(ps: seq<DeliveryPipeline>)
    ensures CountWhere(AllPulls(ps), IsMerged) == ExpectedAll(ps).prsMerged
  {
    if |ps| > 0 {
      MergedOverPipelines(ps[1..]);
      FilterConcat(ps[0].pullRequests, AllPulls(ps[1..]), IsMerged);
    }
  }

  lemma {:induction false} CompletedOverPipelines(ps: seq<DeliveryPipeline>)
    ensures ExpectedAll(ps).issuesCompleted <= CountWhere(ps, IsCompleted)
  {
    if |ps| > 0 {
      CompletedOverPipelines(ps[1..]);
      assert Filter(ps, IsCompleted) == (if IsCompleted(ps[0]) then [ps[0]] else []) + Filter(ps[1..], IsCompleted);
    }
  }

  /** The team and developer counts agree: the merged pull requests of the
      team are those credited to their authors, and no more issues are
      completed by assignees than by the team. */
  lemma TeamAgreesWithDevelopers(teamName: string, ps: seq<DeliveryPipeline>, start: int, end: int)
    ensures var t := CalculateTeamMetrics(teamName, ps, start, end);
      && t.pullRequestsMerged == Total(t.developers).prsMerged
      && Total(t.developers).issuesCompleted <= t.issuesCompleted
  {
    MergedOverPipelines(ps);
    CompletedOverPipelines(ps);
  }
}
