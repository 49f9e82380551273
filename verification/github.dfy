/** The pure parts of the GitHub client (github_client.py): the records it
    fetches, the correlation of issues, pull requests and commits with Jira
    keys, and the state counts of the repository statistics. Confidences
    are in tenths (0.8 is 8). */
module GitHub {
  import opened Wrappers
  import opened Text
  import opened Seqs
  import opened JiraKeys

  /** A GitHub issue; times are microseconds since the epoch. */
  datatype GitHubIssue = GitHubIssue(
    id: int,
    number: int,
    title: string,
    body: Option<string>,
    state: string,
    user: string,
    assignees: seq<string>,
    labels: seq<string>,
    createdAt: int,
    updatedAt: int,
    closedAt: Option<int>,
    repository: string,
    comments: int,
    jiraIssueKey: Option<string>,
    correlationConfidence: Option<int>)

  datatype GitHubPullRequest = GitHubPullRequest(
    id: int,
    number: int,
    title: string,
    body: Option<string>,
    state: string,
    user: string,
    reviewers: seq<string>,
    labels: seq<string>,
    createdAt: int,
    updatedAt: int,
    closedAt: Option<int>,
    mergedAt: Option<int>,
    repository: string,
    commits: int,
    reviewComments: int,
    jiraIssueKeys: seq<string>,
    correlationConfidence: Option<int>)

  /** A commit has no title and no confidence field. */
  datatype GitHubCommit = GitHubCommit(
    sha: string,
    message: string,
    author: string,
    authoredDate: int,
    committedDate: int,
    repository: string,
    additions: int,
    deletions: int,
    jiraIssueKeys: seq<string>)

  /** The items `correlate_with_jira` accepts. */
  datatype Item =
    | IssueItem(issue: GitHubIssue)
    | PullItem(pr: GitHubPullRequest)
    | CommitItem(commit: GitHubCommit)

  /** `item.body or ''`. */
  function BodyText(body: Option<string>): string {
    if body.Some? then body.value else ""
  }

  /** The title and the body (empty when missing), joined by one space. */
  function TitleAndBody(title: string, body: Option<string>): (r: string)
    ensures r == Join([title, BodyText(body)], " ")
  {
    title + " " + BodyText(body)
  }

  /** Some key of `keys` occurs in `title` as a substring. */
  predicate SomeKeyInTitle(keys: seq<string>, title: string) {
    exists k | k in keys :: Contains(title, k)
  }

  /** The issue branch: with keys, one of them and 0.8 for a single key,
      0.6 otherwise; without keys the issue is left as it was. */
  function CorrelateIssue(i: GitHubIssue): (r: GitHubIssue)
    ensures var keys := ExtractJiraKeys(TitleAndBody(i.title, i.body));
      && (|keys| == 0 ==> r == i)
      && (|keys| > 0 ==> r.jiraIssueKey.Some? && r.jiraIssueKey.value in keys)
      && (|keys| > 0 ==> r.correlationConfidence == Some(if |keys| == 1 then 8 else 6))
      && r.(jiraIssueKey := i.jiraIssueKey, correlationConfidence := i.correlationConfidence) == i
  {
    var keys := ExtractJiraKeys(TitleAndBody(i.title, i.body));
    if |keys| > 0 then
      i.(jiraIssueKey := Some(keys[0]), correlationConfidence := Some(if |keys| == 1 then 8 else 6))
    else i
  }

  /** The pull-request branch: the key list is always replaced; with keys,
      0.9 when one of them occurs in the title and 0.7 otherwise. */
  function CorrelatePullRequest(pr: GitHubPullRequest): (r: GitHubPullRequest)
    ensures var keys := ExtractJiraKeys(TitleAndBody(pr.title, pr.body));
      && r.jiraIssueKeys == keys
      && (|keys| == 0 ==> r.correlationConfidence == pr.correlationConfidence)
      && (|keys| > 0 ==> r.correlationConfidence == Some(if SomeKeyInTitle(keys, pr.title) then 9 else 7))
      && r.(jiraIssueKeys := pr.jiraIssueKeys, correlationConfidence := pr.correlationConfidence) == pr
  {
    var keys := ExtractJiraKeys(TitleAndBody(pr.title, pr.body));
    var confidence := if |keys| > 0 then Some(if SomeKeyInTitle(keys, pr.title) then 9 else 7)
                      else pr.correlationConfidence;
    pr.(jiraIssueKeys := keys, correlationConfidence := confidence)
  }

  /** The commit branch shares the pull-request code, which reads
      `item.title`: a commit whose message holds a key raises
      `AttributeError` once its key list has been set. */
  function CorrelateCommit(c: GitHubCommit): (r: Result<GitHubCommit>)
    ensures r.Err? <==> exists i, k :: BoundedKeyAt(c.message, i, k)
    ensures r.Ok? ==> r.value == c.(jiraIssueKeys := [])
  {
    var keys := ExtractJiraKeys(Join([c.message], " "));
    if |keys| > 0 then
      assert keys[0] in keys;
      Err("'GitHubCommit' object has no attribute 'title'")
    else
      assert forall i, k :: BoundedKeyAt(c.message, i, k) ==> k in keys;
      Ok(c.(jiraIssueKeys := keys))
  }

  /** A commit whose whole message is "OCM-1" already fails. */
  lemma KeyedCommitFails(c: GitHubCommit)
    requires c.message == "OCM-1"
    ensures CorrelateCommit(c).Err?
  {
    var k := "OCM-1";
    RunUnique(k, 0, IsUpper, 3);
    assert BoundedKeyAt(c.message, 0, k);
  }

  /** The evidently intended handling of a commit: record the keys of its
      message, with no title to search and no confidence to set. */
  function IntendedCorrelateCommit(c: GitHubCommit): (r: GitHubCommit)
    ensures NoDuplicates(r.jiraIssueKeys)
    ensures forall k :: k in r.jiraIssueKeys <==> exists i :: BoundedKeyAt(c.message, i, k)
    ensures r.(jiraIssueKeys := c.jiraIssueKeys) == c
  {
    c.(jiraIssueKeys := ExtractJiraKeys(c.message))
  }

  /** Wherever the code as written succeeds, it agrees with the intended
      handling. */
  lemma IntendedCommitAgrees(c: GitHubCommit)
    requires CorrelateCommit(c).Ok?
    ensures CorrelateCommit(c).value == IntendedCorrelateCommit(c)
  {
    var keys := ExtractJiraKeys(c.message);
    assert forall k :: k !in keys;
  }

  function CorrelateItem(item: Item): (r: Result<Item>)
    ensures r.Err? <==> item.CommitItem? && CorrelateCommit(item.commit).Err?
    ensures r.Ok? ==> r.value.IssueItem? == item.IssueItem? && r.value.PullItem? == item.PullItem?
  {
    match item
    case IssueItem(i) => Ok(IssueItem(CorrelateIssue(i)))
    case PullItem(pr) => Ok(PullItem(CorrelatePullRequest(pr)))
    case CommitItem(c) =>
      var r :- CorrelateCommit(c);
      Ok(CommitItem(r))
  }

  /** A commit whose message holds a whole-word key. */
  predicate CommitWithKey(item: Item) {
    item.CommitItem? && CorrelateCommit(item.commit).Err?
  }

  /** `correlate_with_jira`: every item correlated in turn; the first
      commit that holds a key ends the call with its error. */
  function CorrelateWithJira(items: seq<Item>): (r: Result<seq<Item>>)
    ensures r.Err? <==> exists k | 0 <= k < |items| :: CommitWithKey(items[k])
    ensures r.Ok? ==> |r.value| == |items|
    ensures r.Ok? ==> forall k | 0 <= k < |items| :: CorrelateItem(items[k]) == Ok(r.value[k])
  {
    if |items| == 0 then Ok([])
    else
      var first :- CorrelateItem(items[0]);
      var rest :- CorrelateWithJira(items[1..]);
      assert forall k | 1 <= k < |items| :: items[k] == items[1..][k - 1];
      Ok([first] + rest)
  }

  /** What the loop writes into one item: the keys, and the confidence for
      issues and pull requests. A commit gets its key list before the title
      is read. */
  function Touched(item: Item): (r: Item)
    ensures r.IssueItem? == item.IssueItem? && r.PullItem? == item.PullItem?
    ensures !CommitWithKey(item) ==> CorrelateItem(item) == Ok(r)
  {
    match item
    case IssueItem(i) => IssueItem(CorrelateIssue(i))
    case PullItem(pr) => PullItem(CorrelatePullRequest(pr))
    case CommitItem(c) =>
      if CorrelateCommit(c).Ok? then IntendedCommitAgrees(c); CommitItem(IntendedCorrelateCommit(c))
      else CommitItem(IntendedCorrelateCommit(c))
  }

  /** The caller's items once `correlate_with_jira` has returned or raised:
      the loop updates each object in place, so every item up to and
      including the first commit that holds a key has been written, and the
      items after it are untouched. */
  function ItemsAfterCorrelation(items: seq<Item>): (r: seq<Item>)
    ensures |r| == |items|
    ensures forall k | 0 <= k < |items| && (forall j | 0 <= j < k :: !CommitWithKey(items[j])) ::
      r[k] == Touched(items[k])
    ensures forall j, k | 0 <= j < k < |items| && CommitWithKey(items[j]) :: r[k] == items[k]
  {
    var f := FirstWhere(items, CommitWithKey);
    seq(|items|, k requires 0 <= k < |items| => if k <= f then Touched(items[k]) else items[k])
  }

  /** When the call returns, the list it returns is the caller's list as
      updated in place. */
  lemma {:induction false} ReturnedItemsAreUpdated(items: seq<Item>)
    requires CorrelateWithJira(items).Ok?
    ensures CorrelateWithJira(items).value == ItemsAfterCorrelation(items)
  {
    var r := CorrelateWithJira(items).value;
    var u := ItemsAfterCorrelation(items);
    forall k | 0 <= k < |items| ensures r[k] == u[k] {
      assert !CommitWithKey(items[k]);
      assert forall j | 0 <= j < k :: !CommitWithKey(items[j]);
    }
  }

  /** A keyed commit keeps the keys the loop wrote before it failed, and
      every item before it stays correlated. */
  lemma FailedCallKeepsWrites(items: seq<Item>, f: nat)
    requires f < |items| && CommitWithKey(items[f])
    requires forall j | 0 <= j < f :: !CommitWithKey(items[j])
    ensures CorrelateWithJira(items).Err?
    ensures ItemsAfterCorrelation(items)[f].commit.jiraIssueKeys == ExtractJiraKeys(items[f].commit.message)
    ensures |ItemsAfterCorrelation(items)[f].commit.jiraIssueKeys| > 0
    ensures forall k | 0 <= k < f :: CorrelateItem(items[k]) == Ok(ItemsAfterCorrelation(items)[k])
  {
    var u := ItemsAfterCorrelation(items);
    assert u[f] == Touched(items[f]);
    KeyedCommitHasKeys(items[f].commit);
    forall k | 0 <= k < f ensures CorrelateItem(items[k]) == Ok(u[k]) {
      assert forall j | 0 <= j < k :: !CommitWithKey(items[j]);
      assert u[k] == Touched(items[k]);
    }
  }

  /** A commit the correlation rejects has keys in its message. */
  lemma KeyedCommitHasKeys(c: GitHubCommit)
    requires CorrelateCommit(c).Err?
    ensures |IntendedCorrelateCommit(c).jiraIssueKeys| > 0
  {
    var i, key :| BoundedKeyAt(c.message, i, key);
    assert key in IntendedCorrelateCommit(c).jiraIssueKeys;
  }

  /** A key standing as a whole word in a title still does so once the body
      is appended after a space. */
  lemma TitleKeyInText(title: string, body: Option<string>, i: int, k: string)
    requires BoundedKeyAt(title, i, k)
    ensures BoundedKeyAt(TitleAndBody(title, body), i, k)
  {
    var s := TitleAndBody(title, body);
    assert s[..|title|] == title;
    assert s[i..i + |k|] == title[i..i + |k|];
    assert s[|title|] == ' ';
    if i > 0 {
      assert s[i - 1] == title[i - 1];
    }
    if i + |k| < |title| {
      assert s[i + |k|] == title[i + |k|];
    }
  }

  /** A pull request whose title names a key whole gets confidence 0.9. */
  lemma TitleKeyGivesHighConfidence(pr: GitHubPullRequest, i: int, k: string)
    requires BoundedKeyAt(pr.title, i, k)
    ensures CorrelatePullRequest(pr).correlationConfidence == Some(9)
    ensures k in CorrelatePullRequest(pr).jiraIssueKeys
  {
    TitleKeyInText(pr.title, pr.body, i, k);
    var keys := ExtractJiraKeys(TitleAndBody(pr.title, pr.body));
    assert k in keys;
    assert OccursAt(pr.title, k, i);
  }

  /** `k` is in `keys` and nothing else is. */
  predicate OnlyElement(keys: seq<string>, k: string) {
    k in keys && forall x | x in keys :: x == k
  }

  /** A duplicate-free list has exactly one element when it holds some `k`
      and nothing else. */
  lemma SingletonIff(keys: seq<string>)
    requires NoDuplicates(keys)
    ensures |keys| == 1 <==> exists k :: OnlyElement(keys, k)
  {
    if |keys| == 1 {
      assert OnlyElement(keys, keys[0]) by {
        assert keys == [keys[0]];
      }
    }
    if k :| OnlyElement(keys, k) {
      if |keys| >= 2 {
        FirstTwoDiffer(keys);
      }
    }
  }

  lemma FirstTwoDiffer(keys: seq<string>)
    requires NoDuplicates(keys) && |keys| >= 2
    ensures keys[0] in keys && keys[1] in keys && keys[0] != keys[1]
  {
  }

  /** `k` is the only key named, possibly several times, in `text`. */
  ghost predicate NamesOnly(text: string, k: string) {
    (exists j :: BoundedKeyAt(text, j, k)) && forall x, j | BoundedKeyAt(text, j, x) :: x == k
  }

  lemma NamesOnlyIff(text: string, k: string)
    ensures NamesOnly(text, k) <==> OnlyElement(ExtractJiraKeys(text), k)
  {
    var keys := ExtractJiraKeys(text);
    if NamesOnly(text, k) {
      forall x | x in keys ensures x == k {
        var j :| BoundedKeyAt(text, j, x);
      }
    }
    if OnlyElement(keys, k) {
      forall x, j | BoundedKeyAt(text, j, x) ensures x == k {
        assert x in keys;
      }
    }
  }

  /** The issue confidence is 0.8 exactly when the text names one key only,
      and the recorded key is one the text names. */
  lemma IssueConfidenceIsSingleKey(i: GitHubIssue)
    requires exists j, k :: BoundedKeyAt(TitleAndBody(i.title, i.body), j, k)
    ensures CorrelateIssue(i).correlationConfidence == Some(8)
            <==> exists k :: NamesOnly(TitleAndBody(i.title, i.body), k)
    ensures CorrelateIssue(i).jiraIssueKey.Some?
    ensures exists j :: BoundedKeyAt(TitleAndBody(i.title, i.body), j, CorrelateIssue(i).jiraIssueKey.value)
  {
    var text := TitleAndBody(i.title, i.body);
    var keys := ExtractJiraKeys(text);
    var j, k :| BoundedKeyAt(text, j, k);
    assert k in keys;
    SingletonIff(keys);
    forall k' ensures NamesOnly(text, k') <==> OnlyElement(keys, k') {
      NamesOnlyIff(text, k');
    }
  }

  /** The conditions under which the repository statistics count an issue
      or a pull request as open, closed or merged. */
  predicate IsOpenIssue(i: GitHubIssue) { i.state == "open" }
  predicate IsClosedIssue(i: GitHubIssue) { i.state == "closed" }
  predicate IsOpenPull(pr: GitHubPullRequest) { pr.state == "open" }
  predicate IsMerged(pr: GitHubPullRequest) { pr.mergedAt.Some? }
  predicate IsClosedUnmerged(pr: GitHubPullRequest) { pr.state == "closed" && pr.mergedAt.None? }
  predicate IsClosedOrMerged(pr: GitHubPullRequest) { pr.state == "closed" || pr.mergedAt.Some? }

  /** A language and its byte count, in the order the API lists them. */
  datatype Language = Language(name: string, bytes: int)

  datatype GitHubStats = GitHubStats(
    repository: string,
    totalCommits: int,
    totalContributors: int,
    totalIssues: int,
    openIssues: int,
    closedIssues: int,
    totalPullRequests: int,
    openPullRequests: int,
    mergedPullRequests: int,
    closedPullRequests: int,
    linesOfCode: int,
    primaryLanguage: Option<string>)

  function TotalBytes(langs: seq<Language>): int {
    if |langs| == 0 then 0 else langs[0].bytes + TotalBytes(langs[1..])
  }

  /** The language with the most bytes; among equals, the first listed, as
      Python's `max` keeps the first maximum it meets. */
  function PrimaryLanguage(langs: seq<Language>): (r: nat)
    requires |langs| > 0
    ensures r < |langs|
    ensures forall j | 0 <= j < |langs| :: langs[j].bytes <= langs[r].bytes
    ensures forall j | 0 <= j < r :: langs[j].bytes < langs[r].bytes
  {
    if |langs| == 1 then 0
    else
      var rest := 1 + PrimaryLanguage(langs[1..]);
      assert forall j | 1 <= j < |langs| :: langs[j] == langs[1..][j - 1];
      if langs[0].bytes >= langs[rest].bytes then 0 else rest
  }

  /** `get_repository_stats`, given what it fetched: the counts by state,
      the total size and the primary language. */
  function RepositoryStats(owner: string, repo: string, issues: seq<GitHubIssue>,
                           prs: seq<GitHubPullRequest>, commits: nat, contributors: nat,
                           langs: seq<Language>): (r: GitHubStats)
    ensures r.repository == owner + "/" + repo
    ensures r.totalCommits == commits && r.totalContributors == contributors
    ensures r.openIssues == CountWhere(issues, IsOpenIssue)
    ensures r.closedIssues == CountWhere(issues, IsClosedIssue)
    ensures r.openPullRequests == CountWhere(prs, IsOpenPull)
    ensures r.mergedPullRequests == CountWhere(prs, IsMerged)
    ensures r.closedPullRequests == CountWhere(prs, IsClosedUnmerged)
    ensures r.linesOfCode == TotalBytes(langs)
    ensures r.openIssues + r.closedIssues <= r.totalIssues == |issues|
    ensures r.mergedPullRequests + r.closedPullRequests == CountWhere(prs, IsClosedOrMerged)
    ensures r.mergedPullRequests + r.closedPullRequests <= r.totalPullRequests == |prs|
    ensures r.primaryLanguage.Some? <==> |langs| > 0
    ensures |langs| > 0 ==> r.primaryLanguage == Some(langs[PrimaryLanguage(langs)].name)
    ensures r.primaryLanguage.Some? ==> exists j | 0 <= j < |langs| ::
      langs[j].name == r.primaryLanguage.value
      && (forall k | 0 <= k < |langs| :: langs[k].bytes <= langs[j].bytes)
      && (forall k | 0 <= k < j :: langs[k].bytes < langs[j].bytes)
  {
    CountDisjoint(issues, IsOpenIssue, IsClosedIssue, i => IsOpenIssue(i) || IsClosedIssue(i));
    CountDisjoint(prs, IsMerged, IsClosedUnmerged, IsClosedOrMerged);
    GitHubStats(
      owner + "/" + repo, commits, contributors,
      |issues|, CountWhere(issues, IsOpenIssue), CountWhere(issues, IsClosedIssue),
      |prs|, CountWhere(prs, IsOpenPull), CountWhere(prs, IsMerged), CountWhere(prs, IsClosedUnmerged),
      TotalBytes(langs),
      if |langs| > 0 then Some(langs[PrimaryLanguage(langs)].name) else None)
  }

  /** No pull request is counted both as merged and as closed, and between
      them the two counts cover every closed or merged one. */
  lemma MergedAndClosedPartition(prs: seq<GitHubPullRequest>)
    ensures forall pr :: !(IsMerged(pr) && IsClosedUnmerged(pr))
    ensures CountWhere(prs, IsMerged) + CountWhere(prs, IsClosedUnmerged) == CountWhere(prs, IsClosedOrMerged)
  {
    CountDisjoint(prs, IsMerged, IsClosedUnmerged, IsClosedOrMerged);
  }
}
