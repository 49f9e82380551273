# Jira reporting: a verified model of the classification and reporting core

This project is a Dafny model of the decision logic of a Jira reporting service.
The service reads Jira issues and GitHub activity. It classifies each issue as
Red, Amber or Green. It buckets issues into a weekly report, correlates GitHub
items with Jira keys and scores webhook events. It also builds the
authentication headers, configuration values, template helpers and MCP tool
results around that core. Network access, template rendering and the clock are
left out. The current time is a parameter wherever the service reads it.

Conventions used throughout:
- Timestamps are integer microseconds since 1970-01-01. Calendar days are integer day numbers, and `.days` of a time difference is floor division by a day (`Calendar`).
- Confidence scores are integer tenths, so 0.8 is 8.
- Fractional thresholds are cross-multiplied, so `amber/total > 0.2` is `5*amber > total`.
- Lower-casing is ASCII lower-casing.
- A Python `list(set(...))` is a duplicate-free sequence, and contracts speak only of its members.
- `re.findall` is an explicit left-to-right scan over ASCII character classes (`JiraKeys`).

Modules, one per source file of the core:
- `Models` for models.py;
- `CoreConfig` for config.py;
- `Classifier` for rag_classifier.py;
- `Report` for report_generator.py;
- `Jql` for the query builder and derived fields of jira_client.py;
- `JiraKeys` and `GitHub` for github_client.py;
- `Analytics` and `TeamStats` for cross_platform_analytics.py;
- `Webhook` for github_webhook_handler.py;
- `Base64` and `Auth` for enhanced_auth.py;
- `EnhancedConfig` for enhanced_config.py;
- `EnhancedReport` for enhanced_report_generator.py;
- `McpServer` for mcp_server.py.

`Wrappers`, `Seqs`, `Text` and `Calendar` hold the shared helpers.

## Model

| member | source | states |
|---|---|---|
| Models.ParseRagStatus | jira_mcp_server/models.py:9-13 | a status value parses exactly when it is "red", "amber" or "green", and it parses to the status whose value it is |
| Models.RagStatusValuesRoundTrip | jira_mcp_server/models.py:9-13 | there are exactly three statuses, and each one's value parses back to it |
| Models.NewIssue | jira_mcp_server/models.py:40-66 | a fresh issue keeps its required fields; it has no RAG status or reason, unknown days in status, is not blocked, and has no labels, components or blockers |
| Models.NewWeeklyReportData | jira_mcp_server/models.py:100-121 | a fresh report has empty buckets and lists, all counts zero, and overall status Green |
| Models.NoCriteria | jira_mcp_server/models.py:134-153 | default criteria filter nothing: no list filter, no date bound, no custom JQL |
| CoreConfig.DefaultRagConfig | jira_mcp_server/config.py:25-31 | the default thresholds are 3 and 7 days, the red priorities are Highest and High, and the blocked statuses are Blocked and Waiting |
| CoreConfig.ValidateServerUrl | jira_mcp_server/config.py:18-22 | a URL is accepted exactly when it starts with http:// or https://; the result is the URL with its trailing slashes removed and never ends in '/' |
| CoreConfig.ServerUrlNormalisation | jira_mcp_server/config.py:18-22 | stripping slashes from an accepted URL changes nothing; re-validating it succeeds exactly when the stripped URL still carries a scheme |
| CoreConfig.BareSchemeIsMangled | jira_mcp_server/config.py:18-22 | "https://" is accepted as "https:", which would itself be rejected |
| CoreConfig.NewJiraConfig | jira_mcp_server/config.py:11-22 | construction succeeds exactly when the server has an http(s) scheme; it stores the normalised server and the given e-mail and token |
| CoreConfig.Validate | jira_mcp_server/config.py:96-99 | validation fails exactly when the server, e-mail or token is empty; otherwise the configuration is unchanged |
| CoreConfig.ValidateAfterConstruction | jira_mcp_server/config.py:96-99 | once construction succeeded, only an empty e-mail or token can fail validation; an empty server never gets past construction |
| CoreConfig.FromEnv | jira_mcp_server/config.py:61-94 | the priority and blocked-status lists are the environment values split on ','; a server without a scheme fails |
| CoreConfig.SplitKeepsSpaces | jira_mcp_server/config.py:72-73 | "Highest, High" splits into "Highest" and " High", with the space kept |
| Classifier.LabelsMentioning | jira_mcp_server/rag_classifier.py:77-87 | the labels listed are exactly the issue's labels that mention one of the words, ignoring case |
| Classifier.RedRule | jira_mcp_server/rag_classifier.py:52-89 | some red rule fires exactly when a red condition holds; the blocked-status rule wins exactly when the issue is in a blocked status |
| Classifier.AmberRule | jira_mcp_server/rag_classifier.py:91-140 | some amber rule fires exactly when an amber condition holds |
| Classifier.DecidingRule | jira_mcp_server/rag_classifier.py:26-50 | the deciding rule is a red one exactly when a red condition holds, an amber one exactly when no red but some amber condition holds, and no rule otherwise |
| Classifier.Classify | jira_mcp_server/rag_classifier.py:26-50 | each issue gets exactly one tier: Red when any red condition holds, else Amber when any amber condition holds, else Green; confidence is 1.0 |
| Classifier.BlockedIsRed | jira_mcp_server/rag_classifier.py:56-60 | an issue flagged blocked, or whose status mentions a blocked status, is Red with the blocked-status reason, whatever its other fields |
| Classifier.PartiallyBlockedIsRed | jira_mcp_server/rag_classifier.py:56-60 | under the defaults, "Partially Blocked" counts as blocked |
| Classifier.UnknownDaysHighPriority | jira_mcp_server/rag_classifier.py:63-109 | a high-priority issue with unknown days never takes the stale red rule; it falls to the amber high-priority watch |
| Classifier.HighPriorityNeverGreen | jira_mcp_server/rag_classifier.py:104-109 | an issue with a red-level priority is never Green |
| Classifier.DayRuleWindow | jira_mcp_server/rag_classifier.py:94-102 | for a non-red issue, the day rule decides exactly when green max < days <= yellow max |
| Classifier.LateAmberRulesOnlyPastYellow | jira_mcp_server/rag_classifier.py:121-138 | the unassigned and development rules can only decide past the yellow threshold |
| Classifier.StaleAssignedIssueIsGreen | jira_mcp_server/rag_classifier.py:94-140 | an assigned, unlabelled, ordinary-priority issue outside development that is past yellow max is Green |
| Classifier.UnassignedAtFiveDays | jira_mcp_server/rag_classifier.py:94-102 | under the defaults, an unassigned issue at 5 days is Amber with the day-count reason, not the unassigned one |
| Classifier.Outcome | jira_mcp_server/rag_classifier.py:142-167 | an issue whose classification raises gets Amber with confidence 0; any other issue gets its classification |
| Classifier.Stamp | jira_mcp_server/rag_classifier.py:151-153 | status and reason are both set from one verdict, and no other field changes |
| Classifier.RecordVerdicts | jira_mcp_server/rag_classifier.py:142-167 | every issue is stamped with its own verdict; the map's keys are exactly the issue keys, and for a repeated key the last issue's verdict is kept |
| Classifier.ClassifyIssuesBatch | jira_mcp_server/rag_classifier.py:142-167 | the batch never aborts: every issue is stamped with its outcome, and the map holds the last outcome under each key |
| Classifier.BatchWithoutErrors | jira_mcp_server/rag_classifier.py:142-167 | without errors, the batch stamps each issue with exactly its single classification |
| Classifier.CountsPartition | jira_mcp_server/rag_classifier.py:169-189 | every issue is counted in exactly one of green, amber, red and unclassified |
| Classifier.GetRagSummary | jira_mcp_server/rag_classifier.py:169-189 | each count is the number of issues in that state, and the four counts add up to the total |
| Classifier.OverallStatus | jira_mcp_server/rag_classifier.py:191-208 | no issues gives Green |
| Classifier.OverallStatusMeaning | jira_mcp_server/rag_classifier.py:191-208 | overall is Red exactly when some issue is Red; Amber exactly when none is Red and more than a fifth are Amber |
| Classifier.OneAmberOfThree | jira_mcp_server/rag_classifier.py:191-208 | one Amber and two Green issues give Amber overall |
| Calendar.WithinDays | jira_mcp_server/report_generator.py:65-67 | a timestamp lies between the start of the first day and the end of the last day exactly when its day is in that range |
| Report.StartedIssues | jira_mcp_server/report_generator.py:109-127 | an issue counts as started exactly when its status mentions an in-progress word and it was updated on one of the seven days ending on the week-ending day |
| Report.CompletedIssues | jira_mcp_server/report_generator.py:129-137 | an issue counts as completed exactly when it was resolved on one of those seven days |
| Report.CategorizeIssuesForReport | jira_mcp_server/report_generator.py:57-107 | the report's buckets are the started, completed, Red and Amber issues; the counts are taken over all the input; overall follows the report formula |
| Report.BucketsAreOrderedSubsequences | jira_mcp_server/report_generator.py:76-91 | every bucket keeps the input's order, and the blocked and at-risk buckets never share an issue |
| Report.BucketsOverlap | jira_mcp_server/report_generator.py:76-91 | one issue can be started, completed and blocked at once |
| Report.CountsBoundedByTotal | jira_mcp_server/report_generator.py:94-97 | green + amber + red never exceeds the total, with equality exactly when every issue is classified |
| Report.ReportOverallMeaning | jira_mcp_server/report_generator.py:100-105 | overall is Red exactly when some issue is Red; Amber exactly when none is Red and 10·amber > 3·green |
| Report.ReportOverallEdges | jira_mcp_server/report_generator.py:100-105 | one Amber and no Green gives Amber; nothing at all gives Green |
| Report.FormulasDiffer | jira_mcp_server/report_generator.py:100-105 | 2 Amber and 7 Green issues are Amber for the classifier but Green for the report |
| Report.FormulasDifferUnclassified | jira_mcp_server/report_generator.py:100-105 | 1 Amber among 5 issues with no Green is Green for the classifier but Amber for the report |
| Report.SelectFormat | jira_mcp_server/report_generator.py:48-55 | markdown, html and confluence are recognised ignoring case; any other name is an error naming the format |
| Report.SelectFormatIgnoresCase | jira_mcp_server/report_generator.py:48-55 | lower-casing the name first changes no successful choice |
| Jql.BuildJql | jira_mcp_server/jira_client.py:206-252 | a non-empty custom query is returned as is; otherwise the query is the joined clauses followed by the ORDER BY suffix |
| Jql.NoFiltersQuery | jira_mcp_server/jira_client.py:249-250 | no filters gives "project is not EMPTY ORDER BY updated DESC" |
| Jql.ClausesOrdered | jira_mcp_server/jira_client.py:213-247 | clauses always come in the fixed order: project, status, assignee, issue type, labels, then the four date bounds |
| Jql.ListClausesPresent | jira_mcp_server/jira_client.py:213-229 | each list filter contributes its clause exactly when its list is non-empty |
| Jql.LabelClausesPresent | jira_mcp_server/jira_client.py:230-236 | there is a labels clause for a label exactly when that label is a filter |
| Jql.DateClausesPresent | jira_mcp_server/jira_client.py:237-247 | each date clause is present exactly when its bound is set, and carries that bound |
| Jql.UnrenderedFilters | jira_mcp_server/jira_client.py:206-252 | the board and resolved-date filters never change the query |
| Jql.TimeOfDayDropped | jira_mcp_server/jira_client.py:237-247 | two bounds on the same day render identically |
| Jql.ProjectThenLabel | jira_mcp_server/jira_client.py:213-252 | one project and one label give the project clause, AND, the label clause, then the ORDER BY suffix |
| Jql.DaysInStatus | jira_mcp_server/jira_client.py:322-328 | days in status is the floor of the elapsed time since the last update, in days |
| Jql.DaysInStatusShift | jira_mcp_server/jira_client.py:322-328 | an update one day earlier adds exactly one day |
| Jql.DeriveFields | jira_mcp_server/jira_client.py:322-350 | an issue is blocked exactly when its status mentions "blocked" or "waiting"; it has no blockers; its URL is server + "/browse/" + key; a missing priority is "Unknown" |
| Jql.DerivedFlagMatchesDefaultStatuses | jira_mcp_server/jira_client.py:331 | the client's blocked flag agrees with the classifier's default blocked statuses |
| JiraKeys.ExtractJiraKeys | github_client.py:469-480 | the keys found are exactly the whole-word keys of the text (2 to 10 capitals, '-', digits), each once |
| JiraKeys.ExtractedKeysAreKeys | github_client.py:477 | every key found has the key shape and occurs in the text |
| JiraKeys.GluedLeftExample | github_client.py:477 | "xOCM-1" gives no key |
| JiraKeys.GluedRightExample | github_client.py:477 | "OCM-12a" gives no key |
| JiraKeys.LowerCaseExample | github_client.py:477 | "ocm-1" gives no key |
| JiraKeys.LongPrefixExample | github_client.py:477 | eleven capitals before the '-' give no key |
| JiraKeys.WebhookKeys | github_webhook_handler.py:216-229 | the webhook keys are the union of both patterns' matches, each once; empty text gives none |
| JiraKeys.WebhookLooseKeys | github_webhook_handler.py:81-84 | every capitals-dash-digits run in the text is found, wherever it stands |
| JiraKeys.WebhookKeysShape | github_webhook_handler.py:81-84 | every webhook key has the key shape, with letters of either case |
| JiraKeys.WebhookIgnoresBoundaries | github_webhook_handler.py:81-84 | "xOCM-1" gives "OCM-1" to the webhook but nothing to the GitHub client |
| JiraKeys.ClosingWordIgnoresCase | github_webhook_handler.py:82 | "fixes abc-12" gives "abc-12" |
| GitHub.CorrelateIssue | github_client.py:497-500 | with keys, the issue gets one of them, at 0.8 for a single key and 0.6 otherwise; without keys it is unchanged |
| GitHub.CorrelatePullRequest | github_client.py:501-504 | the key list is always replaced; with keys, confidence is 0.9 when a key occurs in the title and 0.7 otherwise |
| GitHub.CorrelateCommit | github_client.py:490-504 | a commit fails exactly when its message holds a whole-word key; otherwise its key list becomes empty (the keys written before the failure are kept by `GitHub.ItemsAfterCorrelation`) |
| GitHub.KeyedCommitFails | github_client.py:501-504 | a commit whose message is "OCM-1" fails |
| GitHub.IntendedCorrelateCommit | github_client.py:490-504 | the corrected commit branch records exactly the keys of the message, each once, and changes nothing else |
| GitHub.IntendedCommitAgrees | github_client.py:490-504 | wherever the code as written succeeds, it agrees with the corrected branch |
| GitHub.CorrelateItem | github_client.py:484-504 | correlation fails exactly for a commit holding a key, and keeps each item's kind |
| GitHub.CorrelateWithJira | github_client.py:482-506 | the list fails exactly when some commit holds a key; otherwise each item is correlated in place |
| GitHub.Touched | github_client.py:488-504 | what the loop writes into one item: issues and pull requests get their correlation, a commit gets its message's keys; for every item but a keyed commit this is the correlated item |
| GitHub.ItemsAfterCorrelation | github_client.py:482-506 | the caller's items after the call, returned or raised: every item up to and including the first keyed commit is updated in place, every later one is untouched |
| GitHub.ReturnedItemsAreUpdated | github_client.py:482-506 | when the call returns, its result is the caller's list as updated in place |
| GitHub.FailedCallKeepsWrites | github_client.py:482-506 | when the first keyed commit raises, the call fails; that commit keeps its non-empty key list, and every earlier item keeps its correlation |
| GitHub.TitleKeyGivesHighConfidence | github_client.py:501-504 | a whole-word key in a pull request's title gives confidence 0.9 and is among its keys |
| GitHub.IssueConfidenceIsSingleKey | github_client.py:497-500 | an issue with keys gets 0.8 exactly when its text names a single key, and its key is one standing in the text |
| GitHub.PrimaryLanguage | github_client.py:451 | the primary language has the most bytes, and is the first listed among equals |
| GitHub.RepositoryStats | github_client.py:427-467 | open and closed issues are those in state open and closed; open pull requests are those in state open, merged ones those with a merge date, closed ones those closed without one; merged and closed together are exactly the closed-or-merged ones; lines of code are the byte total; the primary language exists exactly when languages were listed and is the first with the most bytes |
| GitHub.MergedAndClosedPartition | github_client.py:446-448 | no pull request is both merged and closed-unmerged, so the two counts add up to the closed-or-merged count |
| Analytics.CurrentStage | cross_platform_analytics.py:69-82 | the stage is the furthest one whose date is set, or Planning when none is |
| Analytics.StageMonotone | cross_platform_analytics.py:69-82 | setting more stage dates never moves the stage back |
| Analytics.GatherPipeline | cross_platform_analytics.py:163-195 | the pipeline holds exactly the GitHub issues, pull requests and commits whose text names the Jira key as a whole word, and planning starts at creation |
| Analytics.WithTimeline | cross_platform_analytics.py:206-226 | development and review start at the first commit and pull request; integration is at the first merge; developers and reviewers are listed once each; empty collections leave their fields alone |
| Analytics.TimelineIsEarliest | cross_platform_analytics.py:206-213 | the development and review starts are dates that occur, and no commit or pull request is earlier |
| Analytics.DevelopersAreAuthors | cross_platform_analytics.py:208-209 | the developers are exactly the commit authors, each once |
| Analytics.IntegrationIsFirstMerge | cross_platform_analytics.py:219-222 | integration is the earliest merge date when something merged, and unchanged otherwise |
| Analytics.Span | cross_platform_analytics.py:229-239 | a timing is the floor of the whole days between its ends, and is set only when both ends are |
| Analytics.CalculatePipelineMetrics | cross_platform_analytics.py:203-253 | each timing whose two stage dates are set is the number of whole days between them, rounded down; rework is at most the number of commits; review iterations are the comment total; defects are issues labelled "bug" |
| Analytics.HotfixIsRedundant | cross_platform_analytics.py:242-245 | "hotfix" adds nothing: a commit is rework exactly when its message mentions fix, bug or patch |
| Analytics.GatheredStage | cross_platform_analytics.py:153-201 | an analysed pipeline is Completed exactly when its issue is resolved, at Integration exactly when unresolved with a merged pull request, and at Planning exactly when it has no GitHub activity |
| TeamStats.Credit | cross_platform_analytics.py:264-300 | crediting a developer adds them once if new, and adds the credit to the team total |
| TeamStats.CreditTallyOf | cross_platform_analytics.py:264-300 | crediting changes only the named developer's tally |
| TeamStats.ApplyAll | cross_platform_analytics.py:264-300 | after all events, the developers are the earlier ones plus every named one, each once, and the team total grows by the sum of the credits |
| TeamStats.AllEventsSum | cross_platform_analytics.py:264-300 | the credits add up to: one per assigned issue, one per commit with its lines, one per pull request created, one per reviewer listed, one per merge |
| TeamStats.WithDeliveries | cross_platform_analytics.py:305-318 | each developer's delivered count is the number of completed pipelines they were assigned to or committed on |
| TeamStats.CalculateDeveloperMetrics | cross_platform_analytics.py:255-334 | each developer appears once; the developer totals are the per-pipeline counts summed over pipelines |
| TeamStats.CalculateTeamMetrics | cross_platform_analytics.py:336-400 | issues completed is the number of completed pipelines; pull requests merged is the number of merged ones across pipelines |
| TeamStats.MergedOverPipelines | cross_platform_analytics.py:351-356 | merges counted across pipelines equal the merges credited to developers |
| TeamStats.CompletedOverPipelines | cross_platform_analytics.py:351-356 | completions credited to developers never exceed the completed pipelines |
| TeamStats.TeamAgreesWithDevelopers | cross_platform_analytics.py:336-400 | the team's merged count equals the developers' merged total, and the developers' completed total is at most the team's |
| Webhook.ParseEventType | github_webhook_handler.py:161-165 | a parsed event type has the given string as its value |
| Webhook.EventTypeRoundTrip | github_webhook_handler.py:32-41 | each event type's value parses back to it, and only that value does |
| Webhook.Actor | github_webhook_handler.py:171-175 | the actor is the sender's login when a sender is present, else the pusher's name when a pusher is, else "unknown" |
| Webhook.CommitKeys | github_webhook_handler.py:205-214 | push keys are exactly the keys of some commit message, each once |
| Webhook.SpecificityBonus | github_webhook_handler.py:250-254 | one key earns 0.2, two or three earn 0.1, more earn nothing |
| Webhook.Confidence | github_webhook_handler.py:231-256 | no keys gives 0; with keys the score is between 0.5 and 1.0, and 1.0 exactly for one key plus a closing keyword |
| Webhook.EventKeys | github_webhook_handler.py:185-197 | only push, pull-request and issue events get keys, each key once |
| Webhook.ProcessWebhookEvent | github_webhook_handler.py:159-203 | an unknown type gives nothing; otherwise the event carries the type, actor, repository or "unknown", the caller's time, and its own confidence; keyless event types score 0 |
| Webhook.TriggerIff | github_webhook_handler.py:271-272 | an update triggers exactly when there are keys and either a closing keyword or at most three keys |
| Webhook.ManyKeysWithoutKeywordNeverTrigger | github_webhook_handler.py:271-272 | an event scored by the handler with more than three keys and no closing keyword never triggers |
| Webhook.OtherEventsNeverTrigger | github_webhook_handler.py:185-201 | reviews, comments, creates and deletes never trigger |
| Webhook.PushKeysFromMessages | github_webhook_handler.py:185-187 | a push event's keys are exactly those of its commit messages |
| Webhook.KeywordInsideWord | github_webhook_handler.py:247 | keywords are matched inside words: "prefix" contains "fix" |
| Base64.Encode | enhanced_auth.py:240-243 | the encoding has four characters per started group of three bytes, all from the section 4 alphabet of RFC 4648 or padding |
| Base64.DecodeEncode | enhanced_auth.py:240-243 | decoding an encoding gives back the bytes |
| Base64.EncodeInjective | enhanced_auth.py:240-243 | distinct byte strings encode differently |
| Base64.TestVectors | enhanced_auth.py:240-243 | the encodings of "", "f", "fo" and "foo" are those listed in section 10 of RFC 4648 |
| Auth.BasicCredentials | enhanced_auth.py:240-243 | the credentials decode to the UTF-8 bytes of "email:token" |
| Auth.AuthHeader | enhanced_auth.py:228-253 | PAT, BEARER, and other types off Cloud give "Bearer " + token; otherwise "Basic " followed by credentials that decode to "email:token" |
| Auth.BearerIgnoresEmail | enhanced_auth.py:237-253 | a bearer header does not depend on the e-mail |
| Auth.BasicCredentialsSplit | enhanced_auth.py:240-243 | for an e-mail without ':', the decoded credentials split at their first ':' into the e-mail and the token |
| Auth.ClientAgreesWithHeader | enhanced_auth.py:297 | on Server, token authentication is used exactly when the header is a bearer one; elsewhere only for PAT, so BEARER, and OAUTH on auto-detect, disagree with their header |
| Auth.NewAuthManager | enhanced_auth.py:50-56 | a new manager has no clients and is disconnected |
| Auth.Close | enhanced_auth.py:461-468 | closing drops both clients and disconnects; an open session is closed; the migration flags are kept |
| Auth.CloseIdempotent | enhanced_auth.py:461-468 | closing twice is closing once |
| EnhancedConfig.ParseInstanceType | enhanced_config.py:24-28 | a parsed instance type has the given string as its value |
| EnhancedConfig.ParseAuthType | enhanced_config.py:31-36 | a parsed authentication type has the given string as its value |
| EnhancedConfig.EnumRoundTrips | enhanced_config.py:24-36 | each instance and authentication type's value parses back to it |
| EnhancedConfig.ValidateCloudServerUrl | enhanced_config.py:74-78 | a missing or empty cloud URL becomes none; any other is accepted exactly when it has an http(s) scheme, and is normalised like the server URL |
| EnhancedConfig.NewJiraConfig | enhanced_config.py:48-78 | construction succeeds exactly when both URLs validate, and stores the normalised URLs and the given credentials |
| EnhancedConfig.RagDefaultsDiffer | enhanced_config.py:101-118 | the thresholds and priorities match the older configuration, and the blocked statuses add "On Hold" |
| EnhancedConfig.ValidateCompleteness | enhanced_config.py:251-268 | validation succeeds exactly when the server, e-mail and token are set and an enabled GitHub has a token; missing Jira fields give the Jira message |
| EnhancedConfig.GitHubTokenNeededOnlyWhenEnabled | enhanced_config.py:261-266 | with the Jira fields set, a disabled GitHub always validates and an enabled one without a token never does |
| EnhancedConfig.ProjectKeys | enhanced_config.py:283 | an unset or empty variable gives no keys; otherwise the pieces between commas, which join back to the value |
| EnhancedConfig.NonBlank | enhanced_config.py:284 | the pieces that are not blank, in their order, and no others |
| EnhancedConfig.BoardIds | enhanced_config.py:284 | board IDs fail exactly when a non-blank piece is not an integer; otherwise the i-th ID is the integer the i-th non-blank piece reads as, with at most one per comma-separated piece |
| EnhancedConfig.BoardIdsRoundTrip | enhanced_config.py:284 | board IDs written comma-separated are read back unchanged |
| EnhancedConfig.MaskSecrets | enhanced_config.py:350-358 | the Jira token is always masked; the cloud and GitHub tokens are masked only when set; nothing else changes |
| EnhancedConfig.MaskIdempotent | enhanced_config.py:350-358 | masking twice is masking once, and no token survives masking |
| EnhancedConfig.EnvEntry | enhanced_config.py:385-389 | blank, comment and '='-free lines are skipped; any other line splits at its first '=' into a key and a value |
| EnhancedConfig.EnvEntryRoundTrip | enhanced_config.py:385-389 | a line "key=value" is read back as that key and value, even when the value holds '=' |
| EnhancedConfig.MigrateEnvLines | enhanced_config.py:381-390 | every entry of the file is recorded, and a later duplicate key overwrites an earlier one |
| EnhancedReport.ProgressBar | enhanced_report_generator.py:116-120 | for 0 to 100 percent, the bar is width cells, full cells first, then " p%" |
| EnhancedReport.FilledCellsMonotone | enhanced_report_generator.py:116-120 | a larger percentage never fills fewer cells |
| EnhancedReport.ProgressBarEnds | enhanced_report_generator.py:116-120 | 0% fills nothing and 100% fills the whole bar |
| EnhancedReport.TruncateSummary | enhanced_report_generator.py:122-126 | text that fits is unchanged; longer text becomes a prefix of it followed by "...", exactly the limit long when the limit is at least 3 |
| EnhancedReport.TruncateIdempotent | enhanced_report_generator.py:122-126 | with a limit of at least 3 the result fits, so truncating again changes nothing |
| EnhancedReport.ShortLimitOverflows | enhanced_report_generator.py:122-126 | below a limit of 3, truncated text comes out longer than the limit |
| EnhancedReport.JiraLink | enhanced_report_generator.py:128-130 | the link is the base URL, "/browse/", then the key |
| EnhancedReport.JiraLinkInjective | enhanced_report_generator.py:128-130 | under one base URL, distinct keys have distinct links |
| EnhancedReport.DefaultIfEmpty | enhanced_report_generator.py:132-136 | a falsy or blank value gives the default; any other value gives its text |
| EnhancedReport.DefaultIfEmptyIdempotent | enhanced_report_generator.py:132-136 | with a non-blank default the result is never blank, and feeding it back changes nothing |
| EnhancedReport.MultiBoard | enhanced_report_generator.py:890 | the report is multi-board exactly when at least two board IDs are given |
| EnhancedReport.MultiBoardOfConfiguredIds | enhanced_report_generator.py:890 | configured board IDs read back as multi-board exactly when more than one was written |
| EnhancedReport.SafeTeamName | enhanced_report_generator.py:927 | the file-safe team name has no spaces |
| EnhancedReport.ReportTargetFor | enhanced_report_generator.py:911-929 | JSON and ALL are rejected; the other formats get a file "weekly-report-team-date.ext" whose extension maps back to the format |
| EnhancedReport.DistinctDirectories | enhanced_report_generator.py:911-922 | each accepted format writes to a directory of its own |
| McpServer.DefaultWeekEnding | jira_mcp_server/mcp_server.py:609-612 | the default week ending is a Friday, 0 to 6 days before today |
| McpServer.DefaultWeekEndingIsLatest | jira_mcp_server/mcp_server.py:609-612 | no day after it, up to today, is a Friday |
| McpServer.DefaultWeekEndingOfFriday | jira_mcp_server/mcp_server.py:609-612 | the computation is idempotent, and it returns today exactly when today is a Friday |
| McpServer.WeekEnding | jira_mcp_server/mcp_server.py:604-612 | a given date is used as is; otherwise the default Friday |
| McpServer.ReportCriteria | jira_mcp_server/mcp_server.py:614-624 | the window runs from the start of week ending − 6 to the end of week ending; projects and boards are copied when given |
| McpServer.ReportWindowIsSevenDays | jira_mcp_server/mcp_server.py:614-619 | a timestamp is inside the window exactly when its day is one of the seven days ending on the week ending |
| McpServer.IssuesCriteria | jira_mcp_server/mcp_server.py:542-554 | given lists are copied; an updated-after bound, that many days (7 by default) before now, is set exactly when the day count is positive |
| McpServer.GetIssues | jira_mcp_server/mcp_server.py:559-591 | with classification on, every issue is stamped with its classification and the summary counts the tiers; with it off, issues are returned untouched and there is no summary |
| McpServer.ClassifyEachCounts | jira_mcp_server/mcp_server.py:559-564 | after classification no issue is unclassified, and each tier count is the number of issues classified into it |
| McpServer.SummaryCountsClassifications | jira_mcp_server/mcp_server.py:586-591 | the summary's counts are the classifier's tier counts over the fetched issues, and add up to the count |
| McpServer.LabelsUpdate | jira_mcp_server/mcp_server.py:790-804 | non-empty labels replace the set; otherwise added labels are merged into the current set; any remove_labels argument fails |
| McpServer.AddLabelsKeepsAndSettles | jira_mcp_server/mcp_server.py:798-799 | adding keeps every current label, includes every added one, and adding them again changes nothing |
| McpServer.RemoveLabelsFails | jira_mcp_server/mcp_server.py:801-802 | a remove_labels argument fails, with or without labels to add |
| McpServer.IntendedLabelsUpdate | jira_mcp_server/mcp_server.py:790-804 | the corrected update: the labels are the current plus the added ones minus the removed ones |
| McpServer.IntendedAgreesWithoutRemovals | jira_mcp_server/mcp_server.py:790-804 | wherever the code as written succeeds, it agrees with the corrected update |

## Left out

- Network and SDK calls are not modelled: the `jira` library, GitHub REST fetches, aiohttp sessions, rate-limit waits and instance-type detection. The fetched issues, pull requests and commits are parameters.
- The webhook HTTP server and its HMAC signature check are I/O and cryptography, and are not modelled.
- Report and dashboard rendering (Markdown, HTML and Confluence emitters, Jinja templates, dashboard_generator.py) is not modelled. `Report.CategorizeIssuesForReport` stops at the report data.
- Float metrics are not modelled: rates, means, quality scores, deployment frequency, story-point sums, and `average_cycle_time`.
- `datetime.now()` is a parameter (`now`, `today`) wherever it is read. Timezone awareness is not modelled; all timestamps share one integer scale.
- `strptime` of a given week ending is not modelled; `McpServer.WeekEnding` receives an already parsed day.
- async/await, logging, and the command-line entry point main.py are not modelled.
- Loading from the environment is modelled only for the list and URL parts that carry logic. Files, dotenv, JSON writing, and the migration of JavaScript configuration files are not modelled.
- `.lower()` is modelled as ASCII lower-casing, and the regex classes for letters, digits and word characters as ASCII ones. Whitespace is the full set Python's `str.isspace()` accepts, for `\s` and `strip()` alike.
- Text.ParseInt: follows Python's `int()` for ASCII digits, with surrounding whitespace, a sign and single underscores between digits. Non-ASCII decimal digits, which `int()` also accepts, are not modelled.
- Webhook.Payload: a JSON `null` for `repository`, `sender`, `pusher`, `pull_request` or `issue` is modelled as an absent key. The handler calls `.get` on the value, which raises `AttributeError` for `null` (github_webhook_handler.py:167-195).
- CoreConfig.FromEnv: the contract covers only the list splitting and the server check. The integer parsing of the other variables is not stated.
- EnhancedReport.ProgressBar: states the bar only for 0 ≤ percentage ≤ 100 and width ≥ 0. The float rounding of `percentage * width / 100` is modelled as exact integer truncation, which differs only where the float product is inexact.
- EnhancedReport.DefaultIfEmpty: values are None, booleans, integers and strings. Lists, dicts and floats are not modelled.
- EnhancedReport.ReportTargetFor: the error text is only the fixed prefix of the message. The enum's `str` rendering is not modelled.
- Webhook.ProcessWebhookEvent: a JSON `null` commit message is modelled as absent, so it reads as "". The source passes `None` on, and joining it into the keyword text would fail.
- Classifier.Classify: an exception inside classification is not modelled in `Classify` itself. The batch takes the per-issue failure as a parameter (`Classifier.Outcome`).
- GitHub.RepositoryStats: commit and contributor totals and the language byte counts are inputs. Only the state counts and the primary language are derived.
- TeamStats.CalculateDeveloperMetrics: the contract states the team totals and each developer's delivered count. The float fields are not modelled; per-developer tallies are stated only through `TeamStats.CreditTallyOf`.

## Findings

| source | as written | input that shows it | evidently intended | confidence | as-written member | corrected member |
|---|---|---|---|---|---|---|
| jira_mcp_server/mcp_server.py:801-802 | `remove_labels` is passed whole to `set.discard`, which raises `TypeError` for a list | `remove_labels = ["x"]` with no `labels` argument | discard each listed label from the current set | not executed | McpServer.RemoveLabelsFails | McpServer.IntendedLabelsUpdate |
| github_client.py:501-504 | the commit branch shares the pull-request code, which reads `item.title`, and a commit has no title | a commit whose message is "OCM-1" | record the commit's keys without a title test or confidence | not executed | GitHub.KeyedCommitFails | GitHub.IntendedCorrelateCommit |
