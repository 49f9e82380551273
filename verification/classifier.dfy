/** The rule-based RAG classifier (jira_mcp_server/rag_classifier.py): red
    rules first, then amber rules, then green; a batch wrapper that survives
    a failing issue; a count summary; and the overall-status fold.
    Confidence is in tenths: 10 is the source's 1.0. */
module Classifier {
  import opened Wrappers
  import opened Text
  import opened Seqs
  import opened Models
  import opened CoreConfig

  /** `RAGClassificationResult`. */
  datatype Verdict = Verdict(status: RagStatus, reason: string, confidence: int)

  /** The default confidence, 1.0. */
  const FullConfidence: int := 10

  const CriticalLabels: seq<string> := ["critical-blocker", "production-issue", "escalated"]
  const RiskLabels: seq<string> := ["risk", "concern", "dependency", "delayed"]
  const DevelopmentStatuses: seq<string> := ["in progress", "development", "coding", "implementation"]

  /** The labels that mention one of `words`, in their original spelling and order. */
  function LabelsMentioning(labels: seq<string>, words: seq<string>): (r: seq<string>)
    ensures forall l :: l in r <==> l in labels && MentionsAny(l, words)
  {
    Filter(labels, (l: string) => MentionsAny(l, words))
  }

  // ---------------------------------------------------------------------
  // The rules, stated independently of their evaluation order

  /** The status counts as blocked: the flag is set, or the status name
      contains a configured blocked status (case-insensitively). */
  predicate InBlockedStatus(c: RagConfig, i: Issue) {
    i.isBlocked || MentionsAny(i.status.name, c.blockedStatuses)
  }

  predicate HighPriority(c: RagConfig, i: Issue) {
    i.priority in c.redPriorityLevels
  }

  /** `days_in_status` is known and greater than `bound`. */
  predicate DaysAbove(i: Issue, bound: int) {
    i.daysInStatus.Some? && i.daysInStatus.value > bound
  }

  predicate HasCriticalLabel(i: Issue) {
    exists l | l in i.labels :: MentionsAny(l, CriticalLabels)
  }

  predicate HasRiskLabel(i: Issue) {
    exists l | l in i.labels :: MentionsAny(l, RiskLabels)
  }

  predicate InDevelopmentStatus(i: Issue) {
    MentionsAny(i.status.name, DevelopmentStatuses)
  }

  /** Some red rule applies. */
  predicate RedCondition(c: RagConfig, i: Issue) {
    InBlockedStatus(c, i)
    || (HighPriority(c, i) && DaysAbove(i, c.yellowMaxDays))
    || |i.blockers| > 0
    || HasCriticalLabel(i)
  }

  /** Some amber rule applies. */
  predicate AmberCondition(c: RagConfig, i: Issue) {
    (DaysAbove(i, c.greenMaxDays) && !DaysAbove(i, c.yellowMaxDays))
    || HighPriority(c, i)
    || HasRiskLabel(i)
    || (i.assignee.None? && DaysAbove(i, c.greenMaxDays))
    || (InDevelopmentStatus(i) && DaysAbove(i, c.greenMaxDays))
  }

  // ---------------------------------------------------------------------
  // The classifier

  /** The rule that decided a classification, in the order the checks run. */
  datatype Rule =
    | BlockedStatus | StaleHighPriority | BlockerLinks | CriticalLabel
    | StaleDays | HighPriorityWatch | RiskLabel | UnassignedStale | DevelopmentStale
    | NoRisk

  function Tier(rule: Rule): RagStatus {
    match rule
    case BlockedStatus | StaleHighPriority | BlockerLinks | CriticalLabel => Red
    case NoRisk => Green
    case _ => Amber
  }

  /** `_check_red_conditions`: the first red rule that applies, if any. */
  function RedRule(c: RagConfig, i: Issue): (r: Option<Rule>)
    ensures r.Some? <==> RedCondition(c, i)
    ensures r.Some? ==> Tier(r.value) == Red
    ensures r == Some(BlockedStatus) <==> InBlockedStatus(c, i)
  {
    if InBlockedStatus(c, i) then Some(BlockedStatus)
    else if HighPriority(c, i) && DaysAbove(i, c.yellowMaxDays) then Some(StaleHighPriority)
    else if |i.blockers| > 0 then Some(BlockerLinks)
    else if |LabelsMentioning(i.labels, CriticalLabels)| > 0 then
      assert LabelsMentioning(i.labels, CriticalLabels)[0] in LabelsMentioning(i.labels, CriticalLabels);
      Some(CriticalLabel)
    else
      assert !HasCriticalLabel(i) by {
        forall l | l in i.labels ensures !MentionsAny(l, CriticalLabels) {
          assert l !in LabelsMentioning(i.labels, CriticalLabels);
        }
      }
      None
  }

  /** `_check_amber_conditions`: the first amber rule that applies, if any. */
  function AmberRule(c: RagConfig, i: Issue): (r: Option<Rule>)
    ensures r.Some? <==> AmberCondition(c, i)
    ensures r.Some? ==> Tier(r.value) == Amber
  {
    if DaysAbove(i, c.greenMaxDays) && !DaysAbove(i, c.yellowMaxDays) then Some(StaleDays)
    else if HighPriority(c, i) then Some(HighPriorityWatch)
    else if |LabelsMentioning(i.labels, RiskLabels)| > 0 then
      assert LabelsMentioning(i.labels, RiskLabels)[0] in LabelsMentioning(i.labels, RiskLabels);
      Some(RiskLabel)
    else
      assert !HasRiskLabel(i) by {
        forall l | l in i.labels ensures !MentionsAny(l, RiskLabels) {
          assert l !in LabelsMentioning(i.labels, RiskLabels);
        }
      }
      if i.assignee.None? && DaysAbove(i, c.greenMaxDays) then Some(UnassignedStale)
      else if InDevelopmentStatus(i) && DaysAbove(i, c.greenMaxDays) then Some(DevelopmentStale)
      else None
  }

  /** The rule `classify_issue` ends at: red rules, then amber rules, then green. */
  function DecidingRule(c: RagConfig, i: Issue): (r: Rule)
    ensures Tier(r) == Red <==> RedCondition(c, i)
    ensures Tier(r) == Amber <==> !RedCondition(c, i) && AmberCondition(c, i)
    ensures Tier(r) == Green <==> !RedCondition(c, i) && !AmberCondition(c, i)
  {
    match RedRule(c, i)
    case Some(rule) => rule
    case None => AmberRule(c, i).GetOr(NoRisk)
  }

  function DaysText(i: Issue): string {
    IntToString(i.daysInStatus.GetOr(0))
  }

  /** The reason text each rule reports. */
  function Reason(rule: Rule, i: Issue): string {
    match rule
    case BlockedStatus => "Issue is in blocked status: " + i.status.name
    case StaleHighPriority =>
      "High priority issue (" + i.priority + ") has been in " + i.status.name + " for " + DaysText(i) + " days"
    case BlockerLinks => "Issue has " + IntToString(|i.blockers|) + " blocking dependencies"
    case CriticalLabel => "Issue has critical labels: " + Join(LabelsMentioning(i.labels, CriticalLabels), ", ")
    case StaleDays => "Issue has been in " + i.status.name + " for " + DaysText(i) + " days"
    case HighPriorityWatch => "High priority issue (" + i.priority + ") requires close monitoring"
    case RiskLabel => "Issue has risk-related labels: " + Join(LabelsMentioning(i.labels, RiskLabels), ", ")
    case UnassignedStale => "Unassigned issue has been in " + i.status.name + " for " + DaysText(i) + " days"
    case DevelopmentStale => "Development issue has been in progress for " + DaysText(i) + " days"
    case NoRisk => "Issue is progressing normally with no identified risks"
  }

  /** `classify_issue`: total, one tier per issue, red rules before amber rules. */
  function Classify(c: RagConfig, i: Issue): (r: Verdict)
    ensures r.status == Red <==> RedCondition(c, i)
    ensures r.status == Amber <==> !RedCondition(c, i) && AmberCondition(c, i)
    ensures r.status == Green <==> !RedCondition(c, i) && !AmberCondition(c, i)
    ensures r.confidence == FullConfidence
  {
    var rule := DecidingRule(c, i);
    Verdict(Tier(rule), Reason(rule, i), FullConfidence)
  }

  // ---------------------------------------------------------------------
  // Properties of single classifications

  /** A blocked issue is red with the blocked-status reason, whatever else
      holds of it. */
  lemma BlockedIsRed(c: RagConfig, i: Issue)
    requires InBlockedStatus(c, i)
    ensures Classify(c, i) == Verdict(Red, "Issue is in blocked status: " + i.status.name, FullConfidence)
  {
  }

  /** The blocked-status test is a substring test: with the default
      configuration a status called "Partially Blocked" is red. */
  lemma PartiallyBlockedIsRed(i: Issue)
    requires i.status.name == "Partially Blocked"
    ensures Classify(DefaultRagConfig(), i).status == Red
  {
    assert i.status.name == "Partially " + "Blocked" + "";
    ContainsPartIgnoringCase("Partially ", "Blocked", "");
    assert "Blocked" in DefaultRagConfig().blockedStatuses;
  }

  /** An unknown `days_in_status` never makes a high-priority issue red by
      itself; such an issue is amber, for its priority alone. */
  lemma UnknownDaysHighPriority(c: RagConfig, i: Issue)
    requires HighPriority(c, i) && i.daysInStatus.None?
    requires !InBlockedStatus(c, i) && |i.blockers| == 0 && !HasCriticalLabel(i)
    ensures DecidingRule(c, i) == HighPriorityWatch
    ensures Classify(c, i).reason == "High priority issue (" + i.priority + ") requires close monitoring"
  {
  }

  /** A high-priority issue is never green, even at zero days. */
  lemma HighPriorityNeverGreen(c: RagConfig, i: Issue)
    requires HighPriority(c, i)
    ensures Classify(c, i).status != Green
  {
  }

  /** Once no red rule applies, the day rule decides exactly inside
      `(green_max, yellow_max]`. */
  lemma DayRuleWindow(c: RagConfig, i: Issue)
    requires !RedCondition(c, i)
    ensures DecidingRule(c, i) == StaleDays <==> DaysAbove(i, c.greenMaxDays) && !DaysAbove(i, c.yellowMaxDays)
  {
  }

  /** Because the day rule takes every issue in `(green_max, yellow_max]`
      first, the "Unassigned" and "Development" reasons only appear past
      `yellow_max` days. */
  lemma LateAmberRulesOnlyPastYellow(c: RagConfig, i: Issue)
    requires DecidingRule(c, i) in {UnassignedStale, DevelopmentStale}
    ensures DaysAbove(i, c.yellowMaxDays)
  {
  }

  /** An assigned, not high-priority, unlabelled issue outside blocked and
      development statuses is green however long it has sat there once it
      is past `yellow_max`: no rule covers it. */
  lemma StaleAssignedIssueIsGreen(c: RagConfig, i: Issue)
    requires DaysAbove(i, c.yellowMaxDays) && ThresholdsOrdered(c)
    requires i.assignee.Some? && !HighPriority(c, i) && i.labels == [] && i.blockers == []
    requires !InBlockedStatus(c, i) && !InDevelopmentStatus(i)
    ensures Classify(c, i).status == Green
  {
  }

  /** With the default thresholds an unassigned issue at 5 days gets the
      day-rule reason, never the "Unassigned" one. */
  lemma UnassignedAtFiveDays(i: Issue)
    requires i.daysInStatus == Some(5) && i.assignee.None?
    requires !InBlockedStatus(DefaultRagConfig(), i) && i.blockers == [] && i.labels == []
    ensures Classify(DefaultRagConfig(), i).status == Amber
    ensures Classify(DefaultRagConfig(), i).reason == "Issue has been in " + i.status.name + " for 5 days"
  {
    assert IntToString(5) == "5";
  }

  // ---------------------------------------------------------------------
  // Batch classification

  /** What one iteration of the batch loop records: the classification, or,
      when classifying raised `error`, amber with confidence 0. */
  function Outcome(c: RagConfig, i: Issue, raised: Option<string>): (r: Verdict)
    ensures raised.None? ==> r == Classify(c, i)
    ensures raised.Some? ==> r.status == Amber && r.confidence == 0
  {
    match raised
    case None => Classify(c, i)
    case Some(e) => Verdict(Amber, "Classification error: " + e, 0)
  }

  /** The issue with status and reason written from one verdict. */
  function Stamp(i: Issue, v: Verdict): (r: Issue)
    ensures r.ragStatus == Some(v.status) && r.ragReason == Some(v.reason)
    ensures r.(ragStatus := i.ragStatus, ragReason := i.ragReason) == i
  {
    i.(ragStatus := Some(v.status), ragReason := Some(v.reason))
  }

  /** No issue after position `k` has the key of issue `k`. */
  predicate LastWithKey(issues: seq<Issue>, k: int)
    requires 0 <= k < |issues|
  {
    forall j | k < j < |issues| :: issues[j].key != issues[k].key
  }

  /** The verdict of every issue of a batch, in order. */
  function Outcomes(c: RagConfig, issues: seq<Issue>, raises: Issue -> Option<string>): (r: seq<Verdict>)
    ensures |r| == |issues|
    ensures forall k | 0 <= k < |issues| :: r[k] == Outcome(c, issues[k], raises(issues[k]))
  {
    if |issues| == 0 then [] else [Outcome(c, issues[0], raises(issues[0]))] + Outcomes(c, issues[1..], raises)
  }

  /** The keys of `issues`, in order. */
  function Keys(issues: seq<Issue>): (r: seq<string>)
    ensures |r| == |issues|
    ensures forall k | 0 <= k < |issues| :: r[k] == issues[k].key
  {
    if |issues| == 0 then [] else [issues[0].key] + Keys(issues[1..])
  }

  /** Each issue stamped with its own verdict. */
  function StampAll(issues: seq<Issue>, verdicts: seq<Verdict>): (r: seq<Issue>)
    requires |verdicts| == |issues|
    ensures |r| == |issues|
    ensures forall k | 0 <= k < |issues| :: r[k] == Stamp(issues[k], verdicts[k])
  {
    if |issues| == 0 then [] else [Stamp(issues[0], verdicts[0])] + StampAll(issues[1..], verdicts[1..])
  }

  /** The loop of `classify_issues_batch` once each issue's verdict is known:
      stamp every issue and record its verdict under its key, a later issue
      overwriting an earlier one with the same key. */
  method RecordVerdicts(issues: seq<Issue>, verdicts: seq<Verdict>)
    returns (stamped: seq<Issue>, results: map<string, Verdict>)
    requires |verdicts| == |issues|
    ensures |stamped| == |issues|
    ensures forall k | 0 <= k < |issues| :: stamped[k] == Stamp(issues[k], verdicts[k])
    ensures forall k | 0 <= k < |issues| :: issues[k].key in results
    ensures forall key | key in results :: exists k | 0 <= k < |issues| :: issues[k].key == key
    ensures forall k | 0 <= k < |issues| && LastWithKey(issues, k) :: results[issues[k].key] == verdicts[k]
  {
    var keys := Keys(issues);
    stamped := StampAll(issues, verdicts);
    results := map[];
    var n := 0;
    while n < |issues|
      invariant 0 <= n <= |issues|
      invariant Recorded(keys, verdicts, results, n)
    {
      RecordStep(keys, verdicts, results, n);
      results := results[keys[n] := verdicts[n]];
      n := n + 1;
    }
    assert forall k | 0 <= k < |issues| :: LastWithKey(issues, k) == LastBefore(keys, k, |issues|);
  }

  /** `classify_issues_batch`. `raises(i)` says whether classifying `i`
      raises, and with what message; a raising issue does not stop the loop.
      The issues come back stamped, and the result map holds, for each key,
      the verdict of the last issue with that key. */
  method ClassifyIssuesBatch(c: RagConfig, issues: seq<Issue>, raises: Issue -> Option<string>)
    returns (stamped: seq<Issue>, results: map<string, Verdict>)
    ensures |stamped| == |issues|
    ensures forall k | 0 <= k < |issues| :: stamped[k] == Stamp(issues[k], Outcome(c, issues[k], raises(issues[k])))
    ensures forall k | 0 <= k < |issues| :: issues[k].key in results
    ensures forall key | key in results :: exists k | 0 <= k < |issues| :: issues[k].key == key
    ensures forall k | 0 <= k < |issues| && LastWithKey(issues, k) ::
              results[issues[k].key] == Outcome(c, issues[k], raises(issues[k]))
  {
    stamped, results := RecordVerdicts(issues, Outcomes(c, issues, raises));
  }

  /** With nothing raising, every stamped issue carries its own classification. */
  lemma BatchWithoutErrors(c: RagConfig, i: Issue)
    ensures Stamp(i, Outcome(c, i, None)).ragStatus == Some(Classify(c, i).status)
    ensures Stamp(i, Outcome(c, i, None)).ragReason == Some(Classify(c, i).reason)
  {
  }

  // ---------------------------------------------------------------------
  // Summary and overall status

  /** An issue's recorded status is `s`, as a test on issues. */
  function HasStatus(s: Option<RagStatus>): Issue -> bool {
    (i: Issue) => i.ragStatus == s
  }

  /** The issues whose `rag_status` is `s`, in input order. */
  function WithStatus(issues: seq<Issue>, s: Option<RagStatus>): (r: seq<Issue>)
    ensures forall i :: i in r <==> i in issues && i.ragStatus == s
  {
    Filter(issues, HasStatus(s))
  }

  /** The number of issues whose `rag_status` is `s` (`None`: unclassified). */
  function CountStatus(issues: seq<Issue>, s: Option<RagStatus>): nat {
    |WithStatus(issues, s)|
  }

  datatype RagSummary = RagSummary(total: int, green: int, amber: int, red: int, unclassified: int)

  /** Every issue is counted in exactly one of the four buckets. */
  lemma {:induction false} CountsPartition(issues: seq<Issue>)
    ensures CountStatus(issues, Some(Green)) + CountStatus(issues, Some(Amber))
            + CountStatus(issues, Some(Red)) + CountStatus(issues, None) == |issues|
  {
    if |issues| > 0 {
      CountsPartition(issues[1..]);
      match issues[0].ragStatus {
        case None =>
        case Some(v) => assert v == Green || v == Amber || v == Red;
      }
      CountStatusCons(issues, Some(Green));
      CountStatusCons(issues, Some(Amber));
      CountStatusCons(issues, Some(Red));
      CountStatusCons(issues, None);
    }
  }

  /** Counting from the front. */
  lemma CountStatusCons(issues: seq<Issue>, s: Option<RagStatus>)
    requires |issues| > 0
    ensures CountStatus(issues, s) == CountStatus(issues[1..], s) + (if issues[0].ragStatus == s then 1 else 0)
  {
    assert issues == [issues[0]] + issues[1..];
    FilterConcat([issues[0]], issues[1..], HasStatus(s));
  }

  /** Counting one more issue. */
  lemma CountStatusAppend(issues: seq<Issue>, i: Issue, s: Option<RagStatus>)
    ensures CountStatus(issues + [i], s) == CountStatus(issues, s) + (if i.ragStatus == s then 1 else 0)
  {
    FilterAppend(issues, i, HasStatus(s));
  }

  /** `get_rag_summary`. */
  method GetRagSummary(issues: seq<Issue>) returns (r: RagSummary)
    ensures r.total == |issues|
    ensures r.green == CountStatus(issues, Some(Green))
    ensures r.amber == CountStatus(issues, Some(Amber))
    ensures r.red == CountStatus(issues, Some(Red))
    ensures r.unclassified == CountStatus(issues, None)
    ensures r.green + r.amber + r.red + r.unclassified == r.total
  {
    r := RagSummary(|issues|, 0, 0, 0, 0);
    var n := 0;
    while n < |issues|
      invariant 0 <= n <= |issues| && r.total == |issues|
      invariant r.green == CountStatus(issues[..n], Some(Green))
      invariant r.amber == CountStatus(issues[..n], Some(Amber))
      invariant r.red == CountStatus(issues[..n], Some(Red))
      invariant r.unclassified == CountStatus(issues[..n], None)
    {
      var i := issues[n];
      assert issues[..n + 1] == issues[..n] + [i];
      CountStatusAppend(issues[..n], i, Some(Green));
      CountStatusAppend(issues[..n], i, Some(Amber));
      CountStatusAppend(issues[..n], i, Some(Red));
      CountStatusAppend(issues[..n], i, None);
      match i.ragStatus {
        case Some(Green) => r := r.(green := r.green + 1);
        case Some(Amber) => r := r.(amber := r.amber + 1);
        case Some(Red) => r := r.(red := r.red + 1);
        case None => r := r.(unclassified := r.unclassified + 1);
      }
      n := n + 1;
    }
    assert issues[..n] == issues;
    CountsPartition(issues);
  }

  /** `get_overall_status`: `amber / total > 0.2` is `5 * amber > total`. */
  function OverallStatus(issues: seq<Issue>): (r: RagStatus)
    ensures |issues| == 0 ==> r == Green
  {
    if |issues| == 0 then Green
    else if CountStatus(issues, Some(Red)) > 0 then Red
    else if 5 * CountStatus(issues, Some(Amber)) > |issues| then Amber
    else Green
  }

  /** `CountWhere` is positive exactly when some element qualifies. */
  lemma CountStatusPositive(issues: seq<Issue>, s: Option<RagStatus>)
    ensures CountStatus(issues, s) > 0 <==> exists k | 0 <= k < |issues| :: issues[k].ragStatus == s
  {
    var f := WithStatus(issues, s);
    if CountStatus(issues, s) > 0 {
      assert f[0] in f;
    } else {
      forall k | 0 <= k < |issues| ensures issues[k].ragStatus != s {
        assert issues[k] in issues;
        assert issues[k] !in f;
      }
    }
  }

  /** Python's `a / t > 0.2` and the model's `5 * a > t` agree. */
  lemma FifthThreshold(a: real, t: real)
    requires t > 0.0
    ensures a / t > 0.2 <==> 5.0 * a > t
  {
    var q := a / t;
    assert q * t == a;
    assert 5.0 * a - t == (5.0 * q - 1.0) * t;
  }

  /** The overall status is red exactly when some issue is red, and amber
      exactly when none is and more than a fifth of all issues are amber. */
  lemma OverallStatusMeaning(issues: seq<Issue>)
    ensures OverallStatus(issues) == Red <==> exists k | 0 <= k < |issues| :: issues[k].ragStatus == Some(Red)
    ensures OverallStatus(issues) == Amber <==>
              (forall k | 0 <= k < |issues| :: issues[k].ragStatus != Some(Red))
              && |issues| > 0
              && (CountStatus(issues, Some(Amber)) as real) / (|issues| as real) > 0.2
  {
    CountStatusPositive(issues, Some(Red));
    if |issues| > 0 {
      FifthThreshold(CountStatus(issues, Some(Amber)) as real, |issues| as real);
    }
  }

  /** One amber issue among three is a third, more than a fifth: amber. */
  lemma OneAmberOfThree(issues: seq<Issue>)
    requires |issues| == 3
    requires issues[0].ragStatus == Some(Amber)
    requires issues[1].ragStatus == Some(Green) && issues[2].ragStatus == Some(Green)
    ensures OverallStatus(issues) == Amber
  {
    assert issues == [issues[0]] + [issues[1]] + [issues[2]];
    CountStatusAppend([issues[0]], issues[1], Some(Red));
    CountStatusAppend([issues[0]] + [issues[1]], issues[2], Some(Red));
    CountStatusAppend([issues[0]], issues[1], Some(Amber));
    CountStatusAppend([issues[0]] + [issues[1]], issues[2], Some(Amber));
  }
}
