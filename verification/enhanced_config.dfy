/** The unified configuration (enhanced_config.py): the enumerations, the
    URL validators, the completeness check, the RAG defaults, the list
    variables, the masking of secrets when the configuration is saved, and
    the `.env` reader of the legacy migration. */
module EnhancedConfig {
  import opened Wrappers
  import opened Text
  import opened Seqs
  import CoreConfig

  datatype InstanceType = Server | Cloud | AutoDetect

  datatype AuthType = Pat | Basic | Bearer | OAuth

  datatype OutputFormat = Markdown | Html | PlainText | Json | All

  function InstanceTypeValue(t: InstanceType): string {
    match t
    case Server => "server"
    case Cloud => "cloud"
    case AutoDetect => "auto"
  }

  /** `JiraInstanceType(s)`; an unknown value is the `ValueError`. */
  function ParseInstanceType(s: string): (r: Result<InstanceType>)
    ensures r.Ok? ==> InstanceTypeValue(r.value) == s
  {
    if s == "server" then Ok(Server)
    else if s == "cloud" then Ok(Cloud)
    else if s == "auto" then Ok(AutoDetect)
    else Err("not a valid JiraInstanceType: " + s)
  }

  function AuthTypeValue(t: AuthType): string {
    match t
    case Pat => "pat"
    case Basic => "basic"
    case Bearer => "bearer"
    case OAuth => "oauth"
  }

  /** `AuthType(s)`; an unknown value is the `ValueError`. */
  function ParseAuthType(s: string): (r: Result<AuthType>)
    ensures r.Ok? ==> AuthTypeValue(r.value) == s
  {
    if s == "pat" then Ok(Pat)
    else if s == "basic" then Ok(Basic)
    else if s == "bearer" then Ok(Bearer)
    else if s == "oauth" then Ok(OAuth)
    else Err("not a valid AuthType: " + s)
  }

  /** Each enumeration value is parsed back from its own text. */
  lemma EnumRoundTrips(i: InstanceType, a: AuthType)
    ensures ParseInstanceType(InstanceTypeValue(i)) == Ok(i)
    ensures ParseAuthType(AuthTypeValue(a)) == Ok(a)
  {}

  // ---------------------------------------------------------------------
  // Validators

  /** The `cloud_server` validator: `None` and "" both give `None`; any
      other value must carry an http(s) scheme and loses its trailing '/'
      characters, exactly as the `server` validator does. */
  function ValidateCloudServerUrl(v: Option<string>): (r: Result<Option<string>>)
    ensures (v.None? || v.value == "") ==> r == Ok(None)
    ensures v.Some? && v.value != "" ==>
      (r.Ok? <==> CoreConfig.HasHttpScheme(v.value))
    ensures v.Some? && v.value != "" && r.Ok? ==>
      r.value.Some? && Ok(r.value.value) == CoreConfig.ValidateServerUrl(v.value)
  {
    if v.Some? && v.value != "" && !CoreConfig.HasHttpScheme(v.value) then
      Err("Cloud server URL must start with http:// or https://")
    else if v.Some? && v.value != "" then Ok(Some(RStrip(v.value, '/')))
    else Ok(None)
  }

  datatype JiraConfig = JiraConfig(
    server: string,
    email: string,
    apiToken: string,
    instanceType: InstanceType,
    authType: AuthType,
    cloudServer: Option<string>,
    cloudApiToken: Option<string>,
    defaultProjectKeys: seq<string>,
    defaultBoardIds: seq<int>)

  /** `JiraConfig(...)`: both URL validators run at construction. */
  function NewJiraConfig(server: string, email: string, apiToken: string, instanceType: InstanceType,
                         authType: AuthType, cloudServer: Option<string>, cloudApiToken: Option<string>,
                         projectKeys: seq<string>, boardIds: seq<int>): (r: Result<JiraConfig>)
    ensures r.Ok? <==> CoreConfig.HasHttpScheme(server) && ValidateCloudServerUrl(cloudServer).Ok?
    ensures r.Ok? ==> Ok(r.value.server) == CoreConfig.ValidateServerUrl(server)
    ensures r.Ok? ==> Ok(r.value.cloudServer) == ValidateCloudServerUrl(cloudServer)
    ensures r.Ok? ==> r.value.email == email && r.value.apiToken == apiToken && r.value.cloudApiToken == cloudApiToken
  {
    var url :- CoreConfig.ValidateServerUrl(server);
    var cloud :- ValidateCloudServerUrl(cloudServer);
    Ok(JiraConfig(url, email, apiToken, instanceType, authType, cloud, cloudApiToken, projectKeys, boardIds))
  }

  datatype GitHubConfig = GitHubConfig(
    enabled: bool,
    apiToken: Option<string>,
    organization: Option<string>,
    repositories: seq<string>,
    baseUrl: string)

  function DefaultGitHubConfig(): GitHubConfig {
    GitHubConfig(false, None, None, [], "https://api.github.com")
  }

  /** The RAG settings of the unified configuration. */
  datatype RagConfig = RagConfig(
    greenMaxDays: int,
    yellowMaxDays: int,
    redPriorityLevels: seq<string>,
    blockedStatuses: seq<string>,
    greenStatuses: seq<string>,
    redStatuses: seq<string>)

  function DefaultRagConfig(): RagConfig {
    RagConfig(3, 7, ["Highest", "High"], ["Blocked", "Waiting", "On Hold"],
              ["Done", "Closed", "Resolved"], ["Blocked", "Failed"])
  }

  /** The two configurations agree on the thresholds and priorities, but
      only the unified one counts "On Hold" as blocked. */
  lemma RagDefaultsDiffer()
    ensures DefaultRagConfig().greenMaxDays == CoreConfig.DefaultRagConfig().greenMaxDays
    ensures DefaultRagConfig().yellowMaxDays == CoreConfig.DefaultRagConfig().yellowMaxDays
    ensures DefaultRagConfig().redPriorityLevels == CoreConfig.DefaultRagConfig().redPriorityLevels
    ensures "On Hold" in DefaultRagConfig().blockedStatuses
    ensures "On Hold" !in CoreConfig.DefaultRagConfig().blockedStatuses
    ensures forall s | s in CoreConfig.DefaultRagConfig().blockedStatuses :: s in DefaultRagConfig().blockedStatuses
  {
    var core := CoreConfig.DefaultRagConfig().blockedStatuses;
    assert core == ["Blocked", "Waiting"];
    assert "On Hold" != "Blocked" && "On Hold" != "Waiting";
  }

  /** The parts of `Config` this model reads; the report, analytics,
      cache, MCP and migration sections keep their defaults and are not
      modelled. */
  datatype Config = Config(
    jira: JiraConfig,
    github: GitHubConfig,
    rag: RagConfig,
    logLevel: string,
    logFile: Option<string>,
    debugMode: bool)

  predicate Truthy(v: Option<string>) {
    v.Some? && v.value != ""
  }

  /** `validate_configuration_completeness`: the Jira server, e-mail and
      token must be non-empty, and an enabled GitHub integration needs a
      token. The Jira complaint comes first. */
  function ValidateCompleteness(c: Config): (r: Result<Config>)
    ensures r.Ok? <==> c.jira.server != "" && c.jira.email != "" && c.jira.apiToken != ""
                       && (c.github.enabled ==> Truthy(c.github.apiToken))
    ensures r.Ok? ==> r.value == c
    ensures (c.jira.server == "" || c.jira.email == "" || c.jira.apiToken == "") ==>
      r == Err(IncompleteJira())
  {
    if c.jira.server == "" || c.jira.email == "" || c.jira.apiToken == "" then Err(IncompleteJira())
    else if c.github.enabled && !Truthy(c.github.apiToken) then
      Err("GitHub integration is enabled but GITHUB_API_TOKEN is not provided.")
    else Ok(c)
  }

  function IncompleteJira(): string {
    "Jira configuration is incomplete. " + "Please check JIRA_SERVER, JIRA_EMAIL, "
      + "and JIRA_API_TOKEN environment variables."
  }

  /** A disabled GitHub integration never needs a token, and an enabled one
      without a token is refused even when Jira is complete. */
  lemma GitHubTokenNeededOnlyWhenEnabled(c: Config)
    requires c.jira.server != "" && c.jira.email != "" && c.jira.apiToken != ""
    ensures !c.github.enabled ==> ValidateCompleteness(c) == Ok(c)
    ensures c.github.enabled && !Truthy(c.github.apiToken) ==> ValidateCompleteness(c).Err?
  {}

  // ---------------------------------------------------------------------
  // List variables

  /** `JIRA_PROJECT_KEYS`: split on ',' when set and non-empty, else no keys. */
  function ProjectKeys(v: Option<string>): (r: seq<string>)
    ensures !Truthy(v) ==> r == []
    ensures Truthy(v) ==> |r| == Count(v.value, ',') + 1 && Join(r, [',']) == v.value
  {
    if Truthy(v) then
      SplitLength(v.value, ',');
      Split(v.value, ',')
    else []
  }

  predicate NotBlank(x: string) { !AllSpace(x) }

  /** The pieces that are not blank, in their order: the comprehension's
      condition `x.strip()` is true exactly for those. */
  function NonBlank(pieces: seq<string>): (r: seq<string>)
    ensures r == Filter(pieces, NotBlank)
    ensures |r| <= |pieces|
    ensures forall x | x in r :: x in pieces && !AllSpace(x)
    ensures forall x | x in pieces && !AllSpace(x) :: x in r
  {
    if |pieces| == 0 then []
    else
      StripEmptyIff(pieces[0]);
      var rest := NonBlank(pieces[1..]);
      assert forall x | x in pieces[1..] :: x in pieces;
      if Strip(pieces[0]) != "" then [pieces[0]] + rest else rest
  }

  function ParseAll(pieces: seq<string>): (r: Result<seq<int>>)
    ensures r.Ok? ==> |r.value| == |pieces|
    ensures r.Ok? ==> forall i | 0 <= i < |pieces| :: ParseInt(pieces[i]) == Ok(r.value[i])
    ensures r.Err? <==> exists i | 0 <= i < |pieces| :: ParseInt(pieces[i]).Err?
  {
    if |pieces| == 0 then Ok([])
    else
      assert forall i | 1 <= i < |pieces| :: pieces[i] == pieces[1..][i - 1];
      var v :- ParseInt(pieces[0]);
      var rest :- ParseAll(pieces[1..]);
      Ok([v] + rest)
  }

  lemma ParseAllCons(pieces: seq<string>)
    requires |pieces| > 0 && ParseInt(pieces[0]).Ok? && ParseAll(pieces[1..]).Ok?
    ensures ParseAll(pieces) == Ok([ParseInt(pieces[0]).value] + ParseAll(pieces[1..]).value)
  {}

  /** `JIRA_BOARD_IDS`: the comma-separated pieces that are not blank, each
      read as an integer, in order. A piece that is not an integer makes the
      whole conversion fail. */
  function BoardIds(v: string): (r: Result<seq<int>>)
    ensures r.Ok? ==> |r.value| <= Count(v, ',') + 1
    ensures r.Ok? ==> var kept := NonBlank(Split(v, ','));
      |r.value| == |kept| && forall i | 0 <= i < |kept| :: ParseInt(kept[i]) == Ok(r.value[i])
    ensures r.Err? <==> exists x | x in Split(v, ',') && !AllSpace(x) :: ParseInt(x).Err?
  {
    SplitLength(v, ',');
    var kept := NonBlank(Split(v, ','));
    ParseAllFails(kept);
    ParseAll(kept)
  }

  lemma ParseAllFails(pieces: seq<string>)
    ensures ParseAll(pieces).Err? <==> exists x | x in pieces :: ParseInt(x).Err?
  {
    if ParseAll(pieces).Err? {
      var i :| 0 <= i < |pieces| && ParseInt(pieces[i]).Err?;
      assert pieces[i] in pieces;
    }
  }

  /** Comma-joined decimal ids read back as the same ids. */
  lemma {:induction false} BoardIdsRoundTrip(ids: seq<int>)
    ensures BoardIds(Join(IdTexts(ids), [','])) == Ok(ids)
  {
    var texts := IdTexts(ids);
    if |ids| == 0 {
      assert Join(texts, [',']) == "";
      assert Split("", ',') == [""];
      StripEmptyIff("");
      assert NonBlank([""]) == [];
    } else {
      IdTextsPlain(ids);
      assert forall i | 0 <= i < |texts| :: ',' !in texts[i] by {
        forall i | 0 <= i < |texts| ensures ',' !in texts[i] { assert texts[i] in texts; }
      }
      SplitJoin(texts, ',');
      NonBlankOfIds(ids);
      ParseAllOfIds(ids);
    }
  }

  function IdTexts(ids: seq<int>): (r: seq<string>)
    ensures |r| == |ids|
    ensures forall i | 0 <= i < |ids| :: r[i] == IntToString(ids[i])
  {
    if |ids| == 0 then [] else [IntToString(ids[0])] + IdTexts(ids[1..])
  }

  lemma IdTextsPlain(ids: seq<int>)
    ensures forall p | p in IdTexts(ids) :: ',' !in p && !AllSpace(p)
  {
    forall p | p in IdTexts(ids) ensures ',' !in p && !AllSpace(p) {
      var i :| 0 <= i < |ids| && IdTexts(ids)[i] == p;
      StripOfIntText(ids[i]);
      StripEmptyIff(p);
      IntTextHasNoComma(ids[i]);
    }
  }

  lemma IntTextHasNoComma(i: int)
    ensures ',' !in IntToString(i)
  {
    var d := NatToString(if i < 0 then -i else i);
    assert forall k | 0 <= k < |d| :: IsDigit(d[k]);
  }

  lemma {:induction false} NonBlankOfIds(ids: seq<int>)
    ensures NonBlank(IdTexts(ids)) == IdTexts(ids)
  {
    if |ids| > 0 {
      var t := IdTexts(ids);
      IdTextsPlain(ids);
      assert t[0] in t;
      StripEmptyIff(t[0]);
      assert t[1..] == IdTexts(ids[1..]);
      NonBlankOfIds(ids[1..]);
    }
  }

  lemma {:induction false} ParseAllOfIds(ids: seq<int>)
    ensures ParseAll(IdTexts(ids)) == Ok(ids)
  {
    if |ids| > 0 {
      var t := IdTexts(ids);
      assert t[1..] == IdTexts(ids[1..]);
      ParseAllOfIds(ids[1..]);
      ParseIntToString(ids[0]);
      ParseAllCons(t);
      assert ids == [ids[0]] + ids[1..];
    } else {
      assert ids == [];
    }
  }

  // ---------------------------------------------------------------------
  // Saving

  /** `save_to_file`'s masking: the Jira token is always replaced by
      "***"; the cloud and GitHub tokens only when they are set. */
  function MaskSecrets(c: Config): (r: Config)
    ensures r.jira.apiToken == "***"
    ensures Truthy(c.jira.cloudApiToken) ==> r.jira.cloudApiToken == Some("***")
    ensures !Truthy(c.jira.cloudApiToken) ==> r.jira.cloudApiToken == c.jira.cloudApiToken
    ensures Truthy(c.github.apiToken) ==> r.github.apiToken == Some("***")
    ensures !Truthy(c.github.apiToken) ==> r.github.apiToken == c.github.apiToken
    ensures r.jira.(apiToken := c.jira.apiToken, cloudApiToken := c.jira.cloudApiToken) == c.jira
    ensures r.github.(apiToken := c.github.apiToken) == c.github
    ensures r.rag == c.rag && r.logLevel == c.logLevel && r.logFile == c.logFile && r.debugMode == c.debugMode
  {
    var cloud := if Truthy(c.jira.cloudApiToken) then Some("***") else c.jira.cloudApiToken;
    var gh := if Truthy(c.github.apiToken) then Some("***") else c.github.apiToken;
    c.(jira := c.jira.(apiToken := "***", cloudApiToken := cloud), github := c.github.(apiToken := gh))
  }

  /** Masking twice is masking once, and a masked configuration keeps no
      token other than "***" or an empty one. */
  lemma MaskIdempotent(c: Config)
    ensures MaskSecrets(MaskSecrets(c)) == MaskSecrets(c)
    ensures var m := MaskSecrets(c);
      && (m.jira.cloudApiToken.Some? ==> m.jira.cloudApiToken.value in {"***", ""})
      && (m.github.apiToken.Some? ==> m.github.apiToken.value in {"***", ""})
  {}

  // ---------------------------------------------------------------------
  // The `.env` reader

  lemma SplitAround(t: string, i: nat)
    requires i < |t|
    ensures t == t[..i] + [t[i]] + t[i + 1..]
  {}

  /** One line of a `.env` file: stripped, it must be non-empty, not a
      '#' comment and contain '='; it splits at the first '='. */
  function EnvEntry(line: string): (r: Option<(string, string)>)
    ensures r.Some? ==> Strip(line) == r.value.0 + "=" + r.value.1 && '=' !in r.value.0
    ensures r.None? <==> Strip(line) == "" || Strip(line)[0] == '#' || '=' !in Strip(line)
  {
    var t := Strip(line);
    if t != "" && t[0] != '#' && '=' in t then
      var i := IndexOf(t, '=');
      SplitAround(t, i);
      Some((t[..i], t[i + 1..]))
    else None
  }

  /** A line written as `key=value` reads back as that entry, whatever
      '=' characters the value holds. */
  lemma EnvEntryRoundTrip(key: string, value: string)
    requires |key| > 0 && key[0] != '#' && !IsSpace(key[0]) && '=' !in key
    requires |value| == 0 || !IsSpace(value[|value| - 1])
    ensures EnvEntry(key + "=" + value) == Some((key, value))
  {
    var line := key + "=" + value;
    assert line[0] == key[0];
    if |value| > 0 {
      assert line[|line| - 1] == value[|value| - 1];
    } else {
      assert line[|line| - 1] == '=';
    }
    LStripSpaceNoSpace(line);
    RStripSpaceNoSpace(line);
    assert line[|key|] == '=';
    var i := IndexOf(line, '=');
    assert line[..|key|] == key;
    assert i == |key|;
    assert line[i + 1..] == value;
  }

  /** The results `f` gives for the lines, in order, skipping `None`. */
  function Collect<U>(lines: seq<string>, f: string -> Option<U>): (r: seq<U>)
    ensures |r| <= |lines|
  {
    if |lines| == 0 then []
    else if f(lines[0]).Some? then [f(lines[0]).value] + Collect(lines[1..], f)
    else Collect(lines[1..], f)
  }

  /** The collected results are exactly those of the lines that have one. */
  lemma {:induction false} CollectMembership<U>(lines: seq<string>, f: string -> Option<U>, e: U)
    ensures e in Collect(lines, f) <==> exists i | 0 <= i < |lines| :: f(lines[i]) == Some(e)
  {
    if |lines| > 0 {
      CollectMembership(lines[1..], f, e);
      if e in Collect(lines[1..], f) {
        var i :| 0 <= i < |lines[1..]| && f(lines[1..][i]) == Some(e);
        assert f(lines[i + 1]) == Some(e);
      }
      if i :| 0 <= i < |lines| && f(lines[i]) == Some(e) {
        if i > 0 {
          assert f(lines[1..][i - 1]) == Some(e);
        }
      }
    }
  }

  /** The entries of the lines, in order. */
  function Entries(lines: seq<string>): (r: seq<(string, string)>)
    ensures forall e :: e in r <==> exists i | 0 <= i < |lines| :: EnvEntry(lines[i]) == Some(e)
  {
    var r := Collect(lines, EnvEntry);
    forall e ensures e in r <==> exists i | 0 <= i < |lines| :: EnvEntry(lines[i]) == Some(e) {
      CollectMembership(lines, EnvEntry, e);
    }
    r
  }

  function EntryKeys(es: seq<(string, string)>): (r: seq<string>)
    ensures |r| == |es| && forall i | 0 <= i < |es| :: r[i] == es[i].0
  {
    if |es| == 0 then [] else [es[0].0] + EntryKeys(es[1..])
  }

  function EntryValues(es: seq<(string, string)>): (r: seq<string>)
    ensures |r| == |es| && forall i | 0 <= i < |es| :: r[i] == es[i].1
  {
    if |es| == 0 then [] else [es[0].1] + EntryValues(es[1..])
  }

  /** `_migrate_env_file` on the file's lines: each entry assigned in
      order, so a later duplicate key overwrites an earlier one. */
  method MigrateEnvLines(lines: seq<string>) returns (m: map<string, string>)
    ensures Recorded(EntryKeys(Entries(lines)), EntryValues(Entries(lines)), m, |Entries(lines)|)
  {
    var es := Entries(lines);
    var keys, values := EntryKeys(es), EntryValues(es);
    m := map[];
    var n := 0;
    while n < |es|
      invariant 0 <= n <= |es|
      invariant Recorded(keys, values, m, n)
    {
      RecordStep(keys, values, m, n);
      m := m[keys[n] := values[n]];
      n := n + 1;
    }
  }
}
