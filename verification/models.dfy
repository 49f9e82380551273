/** The records the classifier and the report categorizer work on
    (jira_mcp_server/models.py). Timestamps are Calendar timestamps. */
module Models {
  import opened Wrappers

  /** The three risk tiers. */
  datatype RagStatus = Red | Amber | Green

  /** The enum's string value. */
  function RagValue(s: RagStatus): string {
    match s
    case Red => "red"
    case Amber => "amber"
    case Green => "green"
  }

  /** `RAGStatus(value)`: the lookup of a tier by its value; any other value
      is rejected. */
  function ParseRagStatus(value: string): (r: Option<RagStatus>)
    ensures r.Some? <==> value in {"red", "amber", "green"}
    ensures r.Some? ==> RagValue(r.value) == value
  {
    if value == "red" then Some(Red)
    else if value == "amber" then Some(Amber)
    else if value == "green" then Some(Green)
    else None
  }

  /** The enum has exactly three members, each named by a distinct value. */
  lemma RagStatusValuesRoundTrip(s: RagStatus)
    ensures ParseRagStatus(RagValue(s)) == Some(s)
    ensures s == Red || s == Amber || s == Green
  {
  }

  datatype IssueStatus = IssueStatus(id: string, name: string, category: string)

  datatype IssueType = IssueType(id: string, name: string, iconUrl: Option<string>)

  datatype User = User(accountId: string, displayName: string, emailAddress: Option<string>)

  datatype Issue = Issue(
    key: string,
    summary: string,
    description: Option<string>,
    status: IssueStatus,
    issueType: IssueType,
    priority: string,
    assignee: Option<User>,
    reporter: User,
    created: int,
    updated: int,
    resolved: Option<int>,
    labels: seq<string>,
    components: seq<string>,
    blockers: seq<string>,
    sprint: Option<string>,
    ragStatus: Option<RagStatus>,
    ragReason: Option<string>,
    daysInStatus: Option<int>,
    isBlocked: bool,
    url: Option<string>)

  /** An `Issue` built from its required fields only: every optional field
      takes its declared default. */
  function NewIssue(key: string, summary: string, status: IssueStatus, issueType: IssueType,
                    priority: string, reporter: User, created: int, updated: int): (i: Issue)
    ensures i.key == key && i.status == status && i.priority == priority
    ensures i.created == created && i.updated == updated
    ensures i.ragStatus == None && i.ragReason == None
    ensures i.daysInStatus == None && !i.isBlocked
    ensures i.labels == [] && i.components == [] && i.blockers == []
    ensures i.assignee == None && i.resolved == None && i.description == None
  {
    Issue(key, summary, None, status, issueType, priority, None, reporter, created, updated,
          None, [], [], [], None, None, None, None, false, None)
  }

  /** The report the categorizer fills in. */
  datatype WeeklyReportData = WeeklyReportData(
    teamName: string,
    reportWeek: string,
    startedIssues: seq<Issue>,
    completedIssues: seq<Issue>,
    blockedIssues: seq<Issue>,
    atRiskIssues: seq<Issue>,
    risks: seq<string>,
    celebrations: seq<string>,
    associates: seq<string>,
    totalIssues: int,
    greenCount: int,
    amberCount: int,
    redCount: int,
    overallRagStatus: RagStatus)

  function NewWeeklyReportData(teamName: string, reportWeek: string): (d: WeeklyReportData)
    ensures d.teamName == teamName && d.reportWeek == reportWeek
    ensures d.startedIssues == [] && d.completedIssues == []
    ensures d.blockedIssues == [] && d.atRiskIssues == []
    ensures d.risks == [] && d.celebrations == [] && d.associates == []
    ensures d.totalIssues == 0 && d.greenCount == 0 && d.amberCount == 0 && d.redCount == 0
    ensures d.overallRagStatus == Green
  {
    WeeklyReportData(teamName, reportWeek, [], [], [], [], [], [], [], 0, 0, 0, 0, Green)
  }

  /** What to fetch: list filters, date bounds and an optional raw JQL text. */
  datatype FilterCriteria = FilterCriteria(
    projects: seq<string>,
    boards: seq<int>,
    statuses: seq<string>,
    assignees: seq<string>,
    issueTypes: seq<string>,
    labels: seq<string>,
    createdAfter: Option<int>,
    createdBefore: Option<int>,
    updatedAfter: Option<int>,
    updatedBefore: Option<int>,
    resolvedAfter: Option<int>,
    resolvedBefore: Option<int>,
    customJql: Option<string>)

  /** `FilterCriteria()`: nothing filtered. */
  function NoCriteria(): (c: FilterCriteria)
    ensures c.projects == [] && c.boards == [] && c.statuses == []
    ensures c.assignees == [] && c.issueTypes == [] && c.labels == []
    ensures c.createdAfter == None && c.createdBefore == None
    ensures c.updatedAfter == None && c.updatedBefore == None
    ensures c.resolvedAfter == None && c.resolvedBefore == None
    ensures c.customJql == None
  {
    FilterCriteria([], [], [], [], [], [], None, None, None, None, None, None, None)
  }
}
