/** The payload processing of the GitHub webhook handler
    (github_webhook_handler.py): the event type, the actor, the Jira keys
    of push, pull-request and issue events, the correlation confidence and
    the condition that triggers an analytics update. Confidences are in
    tenths: the source's 0.5 is 5 here. */
module Webhook {
  import opened Wrappers
  import opened Text
  import opened Seqs
  import opened JiraKeys

  /** `WebhookEventType`. */
  datatype EventType = Push | PullRequest | PullRequestReview | Issues | IssueComment | Create | Delete

  function EventTypeValue(t: EventType): string {
    match t
    case Push => "push"
    case PullRequest => "pull_request"
    case PullRequestReview => "pull_request_review"
    case Issues => "issues"
    case IssueComment => "issue_comment"
    case Create => "create"
    case Delete => "delete"
  }

  /** `WebhookEventType(event_type)`, with the `ValueError` of an unknown
      value as `None`. */
  function ParseEventType(s: string): (r: Option<EventType>)
    ensures r.Some? ==> EventTypeValue(r.value) == s
  {
    if s == "push" then Some(Push)
    else if s == "pull_request" then Some(PullRequest)
    else if s == "pull_request_review" then Some(PullRequestReview)
    else if s == "issues" then Some(Issues)
    else if s == "issue_comment" then Some(IssueComment)
    else if s == "create" then Some(Create)
    else if s == "delete" then Some(Delete)
    else None
  }

  /** Every event type is recognised from its own value, and only from it. */
  lemma EventTypeRoundTrip(t: EventType, s: string)
    ensures ParseEventType(EventTypeValue(t)) == Some(t)
    ensures ParseEventType(s) == Some(t) <==> s == EventTypeValue(t)
  {}

  // ---------------------------------------------------------------------
  // Payloads

  /** A JSON value read by `obj.get(name, '')` and then formatted into an
      f-string: absent gives the default "", JSON null prints as "None". */
  datatype JsonText = Missing | Null | Str(s: string)

  function Render(v: JsonText): string {
    match v
    case Missing => ""
    case Null => "None"
    case Str(s) => s
  }

  /** The `title` and `body` of a pull request or an issue. */
  datatype Titled = Titled(title: JsonText, body: JsonText)

  /** A commit of a push event; an absent `message` reads as "". */
  datatype CommitPayload = CommitPayload(id: string, message: Option<string>)

  /** The parts of a webhook payload the handler reads. An absent key is
      `None`; `sender` and `pusher` hold the optional `login` and `name`. */
  datatype Payload = Payload(
    repositoryFullName: Option<string>,
    sender: Option<Option<string>>,
    pusher: Option<Option<string>>,
    commits: Option<seq<CommitPayload>>,
    pullRequest: Option<Titled>,
    issue: Option<Titled>)

  /** `WebhookEvent`; the timestamp is the caller's clock. */
  datatype WebhookEvent = WebhookEvent(
    eventType: EventType,
    repository: string,
    timestamp: int,
    actor: string,
    commits: Option<seq<CommitPayload>>,
    pullRequest: Option<Titled>,
    issue: Option<Titled>,
    jiraKeys: Option<seq<string>>,
    confidence: int)

  function OrElse(v: Option<string>, default: string): string {
    if v.Some? then v.value else default
  }

  /** The actor: the sender's login when the payload has a sender, else the
      pusher's name when it has a pusher, else "unknown". */
  function Actor(p: Payload): (r: string)
    ensures p.sender.Some? && p.sender.value.Some? ==> r == p.sender.value.value
    ensures p.sender.None? && p.pusher.Some? && p.pusher.value.Some? ==> r == p.pusher.value.value
    ensures r != "unknown" ==> (p.sender.Some? && p.sender.value == Some(r))
                               || (p.sender.None? && p.pusher.Some? && p.pusher.value == Some(r))
  {
    if p.sender.Some? then OrElse(p.sender.value, "unknown")
    else if p.pusher.Some? then OrElse(p.pusher.value, "unknown")
    else "unknown"
  }

  function Message(c: CommitPayload): string {
    OrElse(c.message, "")
  }

  /** `f"{title} {body}"` of a pull request or issue. */
  function TitledText(t: Titled): string {
    Render(t.title) + " " + Render(t.body)
  }

  /** The keys of every commit message, concatenated. */
  function MessageKeys(commits: seq<CommitPayload>): (r: seq<string>)
    ensures forall k :: k in r <==> exists i | 0 <= i < |commits| :: k in WebhookKeys(Message(commits[i]))
  {
    if |commits| == 0 then []
    else
      var r := WebhookKeys(Message(commits[0])) + MessageKeys(commits[1..]);
      assert forall i | 1 <= i < |commits| :: commits[i] == commits[1..][i - 1];
      assert forall i | 0 <= i < |commits[1..]| :: commits[1..][i] == commits[i + 1];
      r
  }

  /** `_extract_jira_keys_from_commits`: the set union of the keys of
      each commit message. */
  function CommitKeys(commits: seq<CommitPayload>): (r: seq<string>)
    ensures NoDuplicates(r)
    ensures forall k :: k in r <==> exists i | 0 <= i < |commits| :: k in WebhookKeys(Message(commits[i]))
  {
    Dedup(MessageKeys(commits))
  }

  // ---------------------------------------------------------------------
  // Confidence

  /** The words `_calculate_correlation_confidence` looks for in the
      lower-cased text; a plain substring test, so "prefix" counts. */
  function Keywords(): seq<string> {
    ["fix", "close", "resolve"]
  }

  predicate HasKeyword(text: string) {
    exists w | w in Keywords() :: Contains(Lower(text), w)
  }

  /** The text the keyword test reads: the commit messages joined by
      spaces for a push, the title and body otherwise, and "" when the
      event carries no commits, pull request or issue. */
  function TextToCheck(e: WebhookEvent): string {
    if e.eventType == Push && e.commits.Some? && |e.commits.value| > 0 then
      Join(MessagesOf(e.commits.value), " ")
    else if e.eventType == PullRequest && e.pullRequest.Some? then TitledText(e.pullRequest.value)
    else if e.eventType == Issues && e.issue.Some? then TitledText(e.issue.value)
    else ""
  }

  function MessagesOf(commits: seq<CommitPayload>): (r: seq<string>)
    ensures |r| == |commits|
    ensures forall i | 0 <= i < |commits| :: r[i] == Message(commits[i])
  {
    if |commits| == 0 then [] else [Message(commits[0])] + MessagesOf(commits[1..])
  }

  function KeyCount(e: WebhookEvent): nat {
    if e.jiraKeys.Some? then |e.jiraKeys.value| else 0
  }

  /** The increment for specific correlations: one key is the most
      specific, two or three keys less so, more earn nothing. (No keys
      would earn 1, but the confidence of a keyless event is never scored.) */
  function SpecificityBonus(n: nat): (b: int)
    ensures n == 1 ==> b == 2
    ensures n <= 3 && n != 1 ==> b == 1
    ensures n > 3 ==> b == 0
  {
    if n == 1 then 2 else if n <= 3 then 1 else 0
  }

  /** `_calculate_correlation_confidence`, in tenths: 0 without keys;
      otherwise a base of 5, 3 more for a closing keyword, the specificity
      bonus, and a cap of 10. */
  function Confidence(e: WebhookEvent): (r: int)
    ensures KeyCount(e) == 0 ==> r == 0
    ensures KeyCount(e) > 0 ==> 5 <= r <= 10
    ensures KeyCount(e) > 0 ==> (r == 10 <==> HasKeyword(TextToCheck(e)) && KeyCount(e) == 1)
  {
    if KeyCount(e) == 0 then 0
    else
      var c := 5 + (if HasKeyword(TextToCheck(e)) then 3 else 0) + SpecificityBonus(KeyCount(e));
      if c < 10 then c else 10
  }

  // ---------------------------------------------------------------------
  // Processing

  /** The keys of an event: the commit keys of a push, the keys of the
      title and body of a pull request or an issue, and none for the other
      event types. */
  function EventKeys(t: EventType, p: Payload): (r: Option<seq<string>>)
    ensures r.Some? <==> t in {Push, PullRequest, Issues}
    ensures r.Some? ==> NoDuplicates(r.value)
  {
    match t
    case Push => Some(CommitKeys(if p.commits.Some? then p.commits.value else []))
    case PullRequest => Some(WebhookKeys(TitledText(if p.pullRequest.Some? then p.pullRequest.value else Titled(Missing, Missing))))
    case Issues => Some(WebhookKeys(TitledText(if p.issue.Some? then p.issue.value else Titled(Missing, Missing))))
    case _ => None
  }

  /** `_process_webhook_event`: `None` for an unknown event type;
      otherwise the event with its repository, actor, keys and
      confidence. */
  function ProcessWebhookEvent(eventType: string, p: Payload, now: int): (r: Option<WebhookEvent>)
    ensures r.None? <==> ParseEventType(eventType).None?
    ensures r.Some? ==> EventTypeValue(r.value.eventType) == eventType
    ensures r.Some? ==> r.value.actor == Actor(p) && r.value.timestamp == now
    ensures r.Some? ==> r.value.repository == OrElse(p.repositoryFullName, "unknown")
    ensures r.Some? ==> r.value.confidence == Confidence(r.value)
    ensures r.Some? ==> (r.value.jiraKeys.Some? <==> r.value.eventType in {Push, PullRequest, Issues})
    ensures r.Some? && r.value.jiraKeys.None? ==> r.value.confidence == 0
  {
    var t :- ParseEventType(eventType);
    var base := WebhookEvent(t, OrElse(p.repositoryFullName, "unknown"), now, Actor(p), None, None, None, None, 0);
    var withData :=
      (match t
      case Push => base.(commits := Some(if p.commits.Some? then p.commits.value else []))
      case PullRequest => base.(pullRequest := Some(if p.pullRequest.Some? then p.pullRequest.value else Titled(Missing, Missing)))
      case Issues => base.(issue := Some(if p.issue.Some? then p.issue.value else Titled(Missing, Missing)))
      case _ => base);
    var keyed := withData.(jiraKeys := EventKeys(t, p));
    Some(if KeyCount(keyed) > 0 then keyed.(confidence := Confidence(keyed)) else keyed)
  }

  /** The condition of `_handle_event` for an analytics update: some key
      and a confidence above 0.5. */
  predicate ShouldTrigger(e: WebhookEvent) {
    KeyCount(e) > 0 && e.confidence > 5
  }

  /** A processed event triggers exactly when it has keys and either a
      closing keyword or at most three keys. */
  lemma TriggerIff(eventType: string, p: Payload, now: int)
    requires ProcessWebhookEvent(eventType, p, now).Some?
    ensures var e := ProcessWebhookEvent(eventType, p, now).value;
      ShouldTrigger(e) <==> KeyCount(e) > 0 && (HasKeyword(TextToCheck(e)) || KeyCount(e) <= 3)
  {}

  /** More than three keys and no closing keyword never trigger, for any
      event whose confidence was scored by the handler. */
  lemma ManyKeysWithoutKeywordNeverTrigger(e: WebhookEvent)
    requires e.confidence == Confidence(e)
    requires KeyCount(e) > 3 && !HasKeyword(TextToCheck(e))
    ensures !ShouldTrigger(e)
  {}

  /** Review, comment, create and delete events never trigger. */
  lemma OtherEventsNeverTrigger(eventType: string, p: Payload, now: int)
    requires ParseEventType(eventType).Some? && ParseEventType(eventType).value !in {Push, PullRequest, Issues}
    ensures ProcessWebhookEvent(eventType, p, now).Some?
    ensures !ShouldTrigger(ProcessWebhookEvent(eventType, p, now).value)
  {}

  /** The keys of a push are those found in any one of its commit
      messages, each once. */
  lemma PushKeysFromMessages(p: Payload, now: int, k: string)
    requires p.commits.Some?
    ensures var e := ProcessWebhookEvent("push", p, now).value;
      && e.jiraKeys.Some? && NoDuplicates(e.jiraKeys.value)
      && (k in e.jiraKeys.value <==> exists i | 0 <= i < |p.commits.value| :: k in WebhookKeys(Message(p.commits.value[i])))
  {}

  /** The keyword test is a plain substring test: "prefix" counts as a fix. */
  lemma KeywordInsideWord()
    ensures HasKeyword("prefix")
  {
    assert Lower("prefix") == "prefix";
    assert OccursAt("prefix", "fix", 3);
    assert "fix" in Keywords();
  }
}
