/** The pure parts of the Jira client (jira_mcp_server/jira_client.py): the
    JQL query built from filter criteria, and the fields derived when an
    issue is converted. */
module Jql {
  import opened Wrappers
  import opened Text
  import opened Calendar
  import opened Models
  import CoreConfig

  /** One condition of a query, in the order the builder emits them. */
  datatype Clause =
    | ProjectIn(projects: seq<string>)
    | StatusIn(statuses: seq<string>)
    | AssigneeIn(assignees: seq<string>)
    | IssueTypeIn(types: seq<string>)
    | LabelIs(labelName: string)
    | CreatedFrom(createdBound: int)
    | CreatedUntil(createdBound: int)
    | UpdatedFrom(updatedBound: int)
    | UpdatedUntil(updatedBound: int)

  /** Position of a clause kind in the fixed emission order. */
  function Rank(c: Clause): (r: nat)
    ensures r <= 8
  {
    match c
    case ProjectIn(_) => 0
    case StatusIn(_) => 1
    case AssigneeIn(_) => 2
    case IssueTypeIn(_) => 3
    case LabelIs(_) => 4
    case CreatedFrom(_) => 5
    case CreatedUntil(_) => 6
    case UpdatedFrom(_) => 7
    case UpdatedUntil(_) => 8
  }

  /** `'"' + v + '"'`: no escaping of quotes inside `v`. */
  function Quote(v: string): string {
    "\"" + v + "\""
  }

  function QuoteAll(vs: seq<string>): (r: seq<string>)
    ensures |r| == |vs|
    ensures forall k | 0 <= k < |vs| :: r[k] == Quote(vs[k])
  {
    if |vs| == 0 then [] else [Quote(vs[0])] + QuoteAll(vs[1..])
  }

  /** `field in ("v1","v2")`. */
  function InList(field: string, vs: seq<string>): string {
    field + " in (" + Join(QuoteAll(vs), ",") + ")"
  }

  /** The text of one clause; a date bound is written as its date,
      `YYYY-MM-DD`, and its time of day is dropped. */
  function Render(c: Clause): string {
    match c
    case ProjectIn(vs) => InList("project", vs)
    case StatusIn(vs) => InList("status", vs)
    case AssigneeIn(vs) => InList("assignee", vs)
    case IssueTypeIn(vs) => InList("issuetype", vs)
    case LabelIs(l) => "labels = " + Quote(l)
    case CreatedFrom(t) => "created >= " + Quote(IsoDateText(DayOf(t)))
    case CreatedUntil(t) => "created <= " + Quote(IsoDateText(DayOf(t)))
    case UpdatedFrom(t) => "updated >= " + Quote(IsoDateText(DayOf(t)))
    case UpdatedUntil(t) => "updated <= " + Quote(IsoDateText(DayOf(t)))
  }

  function RenderAll(cs: seq<Clause>): (r: seq<string>)
    ensures |r| == |cs|
    ensures forall k | 0 <= k < |cs| :: r[k] == Render(cs[k])
  {
    if |cs| == 0 then [] else [Render(cs[0])] + RenderAll(cs[1..])
  }

  function LabelClauses(labels: seq<string>): (r: seq<Clause>)
    ensures |r| == |labels|
    ensures forall k | 0 <= k < |labels| :: r[k] == LabelIs(labels[k])
    ensures AllRank(r, 4)
  {
    if |labels| == 0 then [] else [LabelIs(labels[0])] + LabelClauses(labels[1..])
  }

  /** One clause when `set` holds, none otherwise. */
  function When(present: bool, c: Clause): (r: seq<Clause>)
    ensures c in r <==> present
    ensures forall x | x in r :: x == c
  {
    if present then [c] else []
  }

  /** The date-bound clauses. */
  function DateClauses(c: FilterCriteria): (r: seq<Clause>)
    ensures forall x | x in r :: 5 <= Rank(x)
  {
    When(c.createdAfter.Some?, CreatedFrom(c.createdAfter.GetOr(0)))
    + When(c.createdBefore.Some?, CreatedUntil(c.createdBefore.GetOr(0)))
    + When(c.updatedAfter.Some?, UpdatedFrom(c.updatedAfter.GetOr(0)))
    + When(c.updatedBefore.Some?, UpdatedUntil(c.updatedBefore.GetOr(0)))
  }

  /** The list-filter clauses. */
  function ListClauses(c: FilterCriteria): (r: seq<Clause>)
    ensures forall x | x in r :: Rank(x) <= 3
  {
    When(|c.projects| > 0, ProjectIn(c.projects)) + When(|c.statuses| > 0, StatusIn(c.statuses))
    + When(|c.assignees| > 0, AssigneeIn(c.assignees)) + When(|c.issueTypes| > 0, IssueTypeIn(c.issueTypes))
  }

  /** The clauses of `_build_jql`, in emission order. Boards and resolution
      dates have no clause at all. */
  function Clauses(c: FilterCriteria): seq<Clause> {
    ListClauses(c) + LabelClauses(c.labels) + DateClauses(c)
  }

  /** Clause ranks never decrease along the sequence. */
  predicate Ordered(cs: seq<Clause>) {
    forall j, k | 0 <= j < k < |cs| :: Rank(cs[j]) <= Rank(cs[k])
  }

  lemma OrderedConcat(a: seq<Clause>, b: seq<Clause>)
    requires Ordered(a) && Ordered(b)
    requires forall x, y | x in a && y in b :: Rank(x) <= Rank(y)
    ensures Ordered(a + b)
  {
    forall j, k | 0 <= j < k < |a + b| ensures Rank((a + b)[j]) <= Rank((a + b)[k]) {
      if j < |a| && |a| <= k {
        assert (a + b)[j] == a[j] && a[j] in a;
        assert (a + b)[k] == b[k - |a|] && b[k - |a|] in b;
      }
    }
  }

  /** Every clause in `cs` has rank `k`. */
  predicate AllRank(cs: seq<Clause>, k: nat) {
    forall x | x in cs :: Rank(x) == k
  }

  /** Four blocks of consecutive ranks, concatenated, are in order. */
  lemma OrderedFour(a: seq<Clause>, b: seq<Clause>, d: seq<Clause>, e: seq<Clause>, k: nat)
    requires AllRank(a, k) && AllRank(b, k + 1) && AllRank(d, k + 2) && AllRank(e, k + 3)
    ensures Ordered(a + b + d + e)
    ensures forall x | x in a + b + d + e :: k <= Rank(x) <= k + 3
  {
    assert forall i | 0 <= i < |a| :: a[i] in a;
    assert forall i | 0 <= i < |b| :: b[i] in b;
    assert forall i | 0 <= i < |d| :: d[i] in d;
    assert forall i | 0 <= i < |e| :: e[i] in e;
    OrderedConcat(a, b);
    assert forall x | x in a + b :: Rank(x) <= k + 1;
    OrderedConcat(a + b, d);
    assert forall x | x in a + b + d :: Rank(x) <= k + 2;
    OrderedConcat(a + b + d, e);
  }

  lemma ListClausesOrdered(c: FilterCriteria)
    ensures Ordered(ListClauses(c))
  {
    OrderedFour(When(|c.projects| > 0, ProjectIn(c.projects)), When(|c.statuses| > 0, StatusIn(c.statuses)),
                When(|c.assignees| > 0, AssigneeIn(c.assignees)), When(|c.issueTypes| > 0, IssueTypeIn(c.issueTypes)), 0);
  }

  lemma DateClausesOrdered(c: FilterCriteria)
    ensures Ordered(DateClauses(c))
  {
    OrderedFour(When(c.createdAfter.Some?, CreatedFrom(c.createdAfter.GetOr(0))),
                When(c.createdBefore.Some?, CreatedUntil(c.createdBefore.GetOr(0))),
                When(c.updatedAfter.Some?, UpdatedFrom(c.updatedAfter.GetOr(0))),
                When(c.updatedBefore.Some?, UpdatedUntil(c.updatedBefore.GetOr(0))), 5);
  }

  /** The clauses come in the fixed order project, status, assignee,
      issuetype, labels, created >=, created <=, updated >=, updated <=. */
  lemma ClausesOrdered(c: FilterCriteria)
    ensures Ordered(Clauses(c))
  {
    ListClausesOrdered(c);
    DateClausesOrdered(c);
    var labels := LabelClauses(c.labels);
    OrderedConcat(ListClauses(c), labels);
    OrderedConcat(ListClauses(c) + labels, DateClauses(c));
  }

  /** The clause content, filter by filter: each non-empty list filter gives
      one clause holding the whole list. */
  lemma ListClausesPresent(c: FilterCriteria)
    ensures ProjectIn(c.projects) in Clauses(c) <==> |c.projects| > 0
    ensures StatusIn(c.statuses) in Clauses(c) <==> |c.statuses| > 0
    ensures AssigneeIn(c.assignees) in Clauses(c) <==> |c.assignees| > 0
    ensures IssueTypeIn(c.issueTypes) in Clauses(c) <==> |c.issueTypes| > 0
  {
    ListsOnlyFromListClauses(c, ProjectIn(c.projects));
    ListsOnlyFromListClauses(c, StatusIn(c.statuses));
    ListsOnlyFromListClauses(c, AssigneeIn(c.assignees));
    ListsOnlyFromListClauses(c, IssueTypeIn(c.issueTypes));
  }

  lemma ListsOnlyFromListClauses(c: FilterCriteria, x: Clause)
    requires Rank(x) <= 3
    ensures x in Clauses(c) <==> x in ListClauses(c)
  {
    assert x !in LabelClauses(c.labels);
    assert x !in DateClauses(c);
  }

  /** Each label gives one clause of its own. */
  lemma LabelClausesPresent(c: FilterCriteria, l: string)
    ensures LabelIs(l) in Clauses(c) <==> l in c.labels
  {
    if l in c.labels {
      var k :| 0 <= k < |c.labels| && c.labels[k] == l;
      assert LabelClauses(c.labels)[k] == LabelIs(l);
    }
  }

  /** Each set date bound gives one clause. */
  lemma DateClausesPresent(c: FilterCriteria, t: int)
    ensures CreatedFrom(t) in Clauses(c) <==> c.createdAfter == Some(t)
    ensures CreatedUntil(t) in Clauses(c) <==> c.createdBefore == Some(t)
    ensures UpdatedFrom(t) in Clauses(c) <==> c.updatedAfter == Some(t)
    ensures UpdatedUntil(t) in Clauses(c) <==> c.updatedBefore == Some(t)
  {
    CreatedFromPresent(c, t);
    CreatedUntilPresent(c, t);
    UpdatedFromPresent(c, t);
    UpdatedUntilPresent(c, t);
  }

  lemma CreatedFromPresent(c: FilterCriteria, t: int)
    ensures CreatedFrom(t) in Clauses(c) <==> c.createdAfter == Some(t)
  {
    DatesOnlyFromDateClauses(c, CreatedFrom(t));
  }

  lemma CreatedUntilPresent(c: FilterCriteria, t: int)
    ensures CreatedUntil(t) in Clauses(c) <==> c.createdBefore == Some(t)
  {
    DatesOnlyFromDateClauses(c, CreatedUntil(t));
  }

  lemma UpdatedFromPresent(c: FilterCriteria, t: int)
    ensures UpdatedFrom(t) in Clauses(c) <==> c.updatedAfter == Some(t)
  {
    DatesOnlyFromDateClauses(c, UpdatedFrom(t));
  }

  lemma UpdatedUntilPresent(c: FilterCriteria, t: int)
    ensures UpdatedUntil(t) in Clauses(c) <==> c.updatedBefore == Some(t)
  {
    DatesOnlyFromDateClauses(c, UpdatedUntil(t));
  }

  lemma DatesOnlyFromDateClauses(c: FilterCriteria, x: Clause)
    requires Rank(x) >= 5
    ensures x in Clauses(c) <==> x in DateClauses(c)
  {
    assert x !in ListClauses(c);
    assert x !in LabelClauses(c.labels);
  }

  const OrderBy: string := " ORDER BY updated DESC"
  const AnyProject: string := "project is not EMPTY"

  /** The condition part of a built query. */
  function Condition(c: FilterCriteria): string {
    var parts := RenderAll(Clauses(c));
    if |parts| > 0 then Join(parts, " AND ") else AnyProject
  }

  /** `_build_jql`: a non-empty custom query verbatim; otherwise the clauses
      joined with " AND " (or the catch-all condition when there are none),
      then the fixed ordering. */
  function BuildJql(c: FilterCriteria): (r: string)
    ensures c.customJql.Some? && c.customJql.value != "" ==> r == c.customJql.value
    ensures !(c.customJql.Some? && c.customJql.value != "") ==>
              EndsWith(r, OrderBy) && r[..|r| - |OrderBy|] == Condition(c)
  {
    if c.customJql.Some? && c.customJql.value != "" then c.customJql.value
    else
      var head := Condition(c);
      assert (head + OrderBy)[..|head|] == head;
      assert (head + OrderBy)[|head|..] == OrderBy;
      head + OrderBy
  }

  /** No filter at all gives the catch-all query. */
  lemma NoFiltersQuery()
    ensures BuildJql(NoCriteria()) == AnyProject + OrderBy
  {
    assert Clauses(NoCriteria()) == [];
  }

  /** Boards and resolution dates never reach the query. */
  lemma UnrenderedFilters(c: FilterCriteria, boards: seq<int>, after: Option<int>, before: Option<int>)
    ensures BuildJql(c.(boards := boards, resolvedAfter := after, resolvedBefore := before)) == BuildJql(c)
  {
    assert Clauses(c.(boards := boards, resolvedAfter := after, resolvedBefore := before)) == Clauses(c);
  }

  /** Only the date of a bound reaches the query text: two bounds on the
      same day render alike. */
  lemma TimeOfDayDropped(t1: int, t2: int)
    requires DayOf(t1) == DayOf(t2)
    ensures Render(CreatedFrom(t1)) == Render(CreatedFrom(t2))
    ensures Render(UpdatedUntil(t1)) == Render(UpdatedUntil(t2))
  {
  }

  lemma ProjectLabelClauses(p: string, l: string)
    ensures Clauses(NoCriteria().(projects := [p], labels := [l])) == [ProjectIn([p]), LabelIs(l)]
  {
    var c := NoCriteria().(projects := [p], labels := [l]);
    assert ListClauses(c) == [ProjectIn([p])];
    assert LabelClauses([l]) == [LabelIs(l)];
    assert DateClauses(c) == [];
  }

  lemma ProjectLabelText(p: string, l: string)
    ensures Join(RenderAll([ProjectIn([p]), LabelIs(l)]), " AND ")
            == "project in (\"" + p + "\") AND labels = \"" + l + "\""
  {
    ProjectLabelParts(p, l);
    var parts := RenderAll([ProjectIn([p]), LabelIs(l)]);
    assert Join(parts, " AND ") == parts[0] + " AND " + parts[1];
  }

  lemma ProjectLabelParts(p: string, l: string)
    ensures RenderAll([ProjectIn([p]), LabelIs(l)])
            == ["project in (\"" + p + "\")", "labels = \"" + l + "\""]
  {
    assert RenderAll([ProjectIn([p]), LabelIs(l)]) == [Render(ProjectIn([p])), Render(LabelIs(l))];
    assert QuoteAll([p]) == [Quote(p)];
    assert Join([Quote(p)], ",") == Quote(p);
    assert "project in (" + "\"" == "project in (\"";
    assert "\"" + ")" == "\")";
    assert "labels = " + "\"" == "labels = \"";
    assert Render(ProjectIn([p])) == "project in (" + Quote(p) + ")";
    assert Render(LabelIs(l)) == "labels = " + Quote(l);
    Regroup("project in (", "\"", p, "\"", ")");
    Regroup("labels = ", "\"", l, "\"", "");
    assert "labels = \"" + l + "\"" + "" == "labels = \"" + l + "\"";
    assert Render(ProjectIn([p])) == "project in (\"" + p + "\")";
    assert Render(LabelIs(l)) == "labels = \"" + l + "\"";
  }

  lemma Regroup(a: string, b: string, p: string, c: string, d: string)
    ensures a + (b + p + c) + d == (a + b) + p + (c + d)
  {
  }

  /** One project and one label give two clauses in that order. */
  lemma ProjectThenLabel(p: string, l: string)
    ensures BuildJql(NoCriteria().(projects := [p], labels := [l]))
            == "project in (\"" + p + "\") AND labels = \"" + l + "\"" + OrderBy
  {
    var c := NoCriteria().(projects := [p], labels := [l]);
    ProjectLabelClauses(p, l);
    ProjectLabelText(p, l);
    var head := Join(RenderAll([ProjectIn([p]), LabelIs(l)]), " AND ");
    assert Condition(c) == head;
    assert BuildJql(c) == head + OrderBy;
  }

  // ---------------------------------------------------------------------
  // Derived fields of `_convert_jira_issue`

  const BlockedWords: seq<string> := ["blocked", "waiting"]

  /** `is_blocked`: the status name mentions "blocked" or "waiting". */
  predicate StatusLooksBlocked(statusName: string) {
    MentionsAny(statusName, BlockedWords)
  }

  /** `(now - updated).days`: whole days since the last update. */
  function DaysInStatus(now: int, updated: int): (r: int)
    ensures r * MicrosPerDay <= now - updated < (r + 1) * MicrosPerDay
  {
    WholeDays(now, updated)
  }

  /** The converted issue's derived fields: `is_blocked` from the status
      name, `blockers` always empty, `days_in_status` counted from `updated`
      to `now`, and the browse URL; a missing priority reads "Unknown". */
  function DeriveFields(i: Issue, priority: Option<string>, now: int, server: string): (r: Issue)
    ensures r.isBlocked <==> StatusLooksBlocked(i.status.name)
    ensures r.blockers == []
    ensures r.daysInStatus == Some(WholeDays(now, i.updated))
    ensures r.url == Some(server + "/browse/" + i.key)
    ensures r.priority == (if priority.Some? then priority.value else "Unknown")
    ensures r.key == i.key && r.status == i.status && r.labels == i.labels && r.updated == i.updated
  {
    i.(isBlocked := StatusLooksBlocked(i.status.name), blockers := [],
       daysInStatus := Some(DaysInStatus(now, i.updated)),
       url := Some(server + "/browse/" + i.key), priority := priority.GetOr("Unknown"))
  }

  /** Mentioning one of two words is mentioning the first or the second. */
  lemma MentionsOneOfTwo(text: string, a: string, b: string)
    ensures MentionsAny(text, [a, b]) <==> ContainsIgnoringCase(text, a) || ContainsIgnoringCase(text, b)
  {
    if ContainsIgnoringCase(text, a) {
      assert a in [a, b];
    }
    if ContainsIgnoringCase(text, b) {
      assert b in [a, b];
    }
  }

  /** The derived flag is the default blocked-status rule over again: the
      default statuses "Blocked" and "Waiting", lowercased, are the two
      words the flag looks for. */
  lemma DerivedFlagMatchesDefaultStatuses(statusName: string)
    ensures StatusLooksBlocked(statusName) <==> MentionsAny(statusName, CoreConfig.DefaultRagConfig().blockedStatuses)
  {
    assert Lower("Blocked") == Lower("blocked");
    assert Lower("Waiting") == Lower("waiting");
    assert CoreConfig.DefaultRagConfig().blockedStatuses == ["Blocked", "Waiting"];
    MentionsOneOfTwo(statusName, "blocked", "waiting");
    MentionsOneOfTwo(statusName, "Blocked", "Waiting");
  }

  /** A day of updates moves `days_in_status` by exactly one. */
  lemma DaysInStatusShift(now: int, updated: int)
    ensures DaysInStatus(now, updated - MicrosPerDay) == DaysInStatus(now, updated) + 1
  {
    var d := DaysInStatus(now, updated);
    assert (d + 1) * MicrosPerDay <= now - (updated - MicrosPerDay) < (d + 2) * MicrosPerDay;
  }
}
