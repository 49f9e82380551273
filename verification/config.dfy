/** Configuration of the MCP server (jira_mcp_server/config.py): the RAG
    thresholds, the Jira connection with its URL validator, and loading
    everything from environment variables. */
module CoreConfig {
  import opened Wrappers
  import opened Text

  /** Thresholds and vocabularies of the classifier. */
  datatype RagConfig = RagConfig(
    greenMaxDays: int,
    yellowMaxDays: int,
    redPriorityLevels: seq<string>,
    blockedStatuses: seq<string>)

  /** `RAGConfig()`. */
  function DefaultRagConfig(): (c: RagConfig)
    ensures c.greenMaxDays == 3 && c.yellowMaxDays == 7
    ensures c.redPriorityLevels == ["Highest", "High"]
    ensures c.blockedStatuses == ["Blocked", "Waiting"]
  {
    RagConfig(3, 7, ["Highest", "High"], ["Blocked", "Waiting"])
  }

  /** What the classifier's day rules presuppose but no code checks: the
      thresholds are non-negative and ordered. */
  predicate ThresholdsOrdered(c: RagConfig) {
    0 <= c.greenMaxDays <= c.yellowMaxDays
  }

  datatype JiraConfig = JiraConfig(server: string, email: string, apiToken: string)

  predicate HasHttpScheme(url: string) {
    StartsWith(url, "http://") || StartsWith(url, "https://")
  }

  /** The `server` validator: the URL must carry an http(s) scheme, and every
      trailing '/' is removed. */
  function ValidateServerUrl(v: string): (r: Result<string>)
    ensures r.Ok? <==> HasHttpScheme(v)
    ensures r.Ok? ==> StartsWith(v, r.value) && (forall i :: |r.value| <= i < |v| ==> v[i] == '/')
    ensures r.Ok? ==> !EndsWith(r.value, "/")
  {
    if HasHttpScheme(v) then Ok(RStrip(v, '/'))
    else Err("Server URL must start with http:// or https://")
  }

  /** Stripping is idempotent, and a validated URL validates again to itself
      unless nothing but the scheme was left: "https://" becomes "https:",
      which the validator would then reject. */
  lemma ServerUrlNormalisation(v: string)
    requires HasHttpScheme(v)
    ensures RStrip(ValidateServerUrl(v).value, '/') == ValidateServerUrl(v).value
    ensures ValidateServerUrl(ValidateServerUrl(v).value).Ok? <==> HasHttpScheme(RStrip(v, '/'))
  {
    RStripIdempotent(v, '/');
  }

  /** The scheme alone is accepted and comes out as a URL the validator
      itself would refuse. */
  lemma BareSchemeIsMangled()
    ensures ValidateServerUrl("https://") == Ok("https:")
    ensures ValidateServerUrl("https:").Err?
  {
    assert StartsWith("https://", "https://");
    assert "https://"[..7] == "https:/";
    assert "https:/"[..6] == "https:";
    assert RStrip("https://", '/') == RStrip("https:/", '/') == RStrip("https:", '/') == "https:";
    assert !StartsWith("https:", "http://");
    assert !StartsWith("https:", "https://");
  }

  /** `JiraConfig(server=..., ...)`: construction runs the URL validator. */
  function NewJiraConfig(server: string, email: string, apiToken: string): (r: Result<JiraConfig>)
    ensures r.Ok? <==> HasHttpScheme(server)
    ensures r.Ok? ==> r.value.email == email && r.value.apiToken == apiToken
    ensures r.Ok? ==> Ok(r.value.server) == ValidateServerUrl(server)
  {
    var url :- ValidateServerUrl(server);
    Ok(JiraConfig(url, email, apiToken))
  }

  datatype ReportConfig = ReportConfig(defaultReportDay: string, storageDays: int, templatePath: Option<string>)

  datatype McpConfig = McpConfig(host: string, port: int)

  datatype Config = Config(
    jira: JiraConfig,
    rag: RagConfig,
    report: ReportConfig,
    mcp: McpConfig,
    logLevel: string,
    logFile: Option<string>)

  /** `Config.validate()`: fails exactly when a Jira connection field is empty. */
  function Validate(c: Config): (r: Result<Config>)
    ensures r.Err? <==> (c.jira.server == "" || c.jira.email == "" || c.jira.apiToken == "")
    ensures r.Ok? ==> r.value == c
  {
    if c.jira.server == "" || c.jira.email == "" || c.jira.apiToken == "" then
      Err("Jira configuration is incomplete. " + "Please check JIRA_SERVER, JIRA_EMAIL, "
        + "and JIRA_API_TOKEN environment variables.")
    else Ok(c)
  }

  /** A Jira configuration that got through its constructor never has an empty
      server, so `validate` can only complain about the e-mail or the token:
      a configuration with `server=""` is refused by the URL validator before
      `validate` is ever reached. */
  lemma ValidateAfterConstruction(server: string, email: string, token: string, rest: Config)
    requires NewJiraConfig(server, email, token).Ok?
    ensures var c := rest.(jira := NewJiraConfig(server, email, token).value);
            Validate(c).Err? <==> (email == "" || token == "")
    ensures NewJiraConfig("", email, token).Err?
  {
    var url := NewJiraConfig(server, email, token).value.server;
    assert StartsWith(server, url);
    assert HasHttpScheme(server);
    assert |server| >= 5 && server[0] == 'h';
    assert server[0] != '/';
    assert |url| > 0;
  }

  /** Environment lookup with a default, `os.getenv(name, default)`. */
  function GetEnv(env: map<string, string>, name: string, default: string): string {
    if name in env then env[name] else default
  }

  function GetEnvOpt(env: map<string, string>, name: string): Option<string> {
    if name in env then Some(env[name]) else None
  }

  /** `Config.from_env()`: every field from its variable or its default; the
      lists are split on ',' and nothing is trimmed. */
  function FromEnv(env: map<string, string>): (r: Result<Config>)
    ensures r.Ok? ==> r.value.rag.redPriorityLevels == Split(GetEnv(env, "RED_PRIORITIES", "Highest,High"), ',')
    ensures r.Ok? ==> r.value.rag.blockedStatuses == Split(GetEnv(env, "BLOCKED_STATUSES", "Blocked,Waiting"), ',')
    ensures !HasHttpScheme(GetEnv(env, "JIRA_SERVER", "")) ==> r.Err?
  {
    var jira :- NewJiraConfig(GetEnv(env, "JIRA_SERVER", ""), GetEnv(env, "JIRA_EMAIL", ""),
                              GetEnv(env, "JIRA_API_TOKEN", ""));
    var green :- ParseInt(GetEnv(env, "GREEN_MAX_DAYS", "3"));
    var yellow :- ParseInt(GetEnv(env, "YELLOW_MAX_DAYS", "7"));
    var rag := RagConfig(green, yellow,
                         Split(GetEnv(env, "RED_PRIORITIES", "Highest,High"), ','),
                         Split(GetEnv(env, "BLOCKED_STATUSES", "Blocked,Waiting"), ','));
    var storage :- ParseInt(GetEnv(env, "REPORT_STORAGE_DAYS", "90"));
    var report := ReportConfig(GetEnv(env, "DEFAULT_REPORT_DAY", "Wednesday"), storage,
                               GetEnvOpt(env, "TEMPLATE_PATH"));
    var port :- ParseInt(GetEnv(env, "MCP_SERVER_PORT", "8000"));
    var mcp := McpConfig(GetEnv(env, "MCP_SERVER_HOST", "localhost"), port);
    Ok(Config(jira, rag, report, mcp, GetEnv(env, "LOG_LEVEL", "INFO"), GetEnvOpt(env, "LOG_FILE")))
  }

  /** A space after a comma stays part of the next entry: "Highest, High"
      configures the priorities "Highest" and " High". */
  lemma SplitKeepsSpaces()
    ensures Split("Highest, High", ',') == ["Highest", " High"]
  {
    SplitJoin(["Highest", " High"], ',');
    assert Join(["Highest", " High"], [',']) == "Highest, High";
  }
}
