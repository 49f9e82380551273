/** The pure parts of the authentication manager (enhanced_auth.py): the
    Authorization header for each authentication type, the choice between
    token and basic authentication when a client is created, and `close`.
    The network calls themselves are not modelled. */
module Auth {
  import opened Wrappers
  import opened Base64
  import opened EnhancedConfig

  /** The header uses a bearer token: PAT and BEARER always, any other
      type except BASIC unless the instance is a Cloud one. */
  predicate BearerHeader(a: AuthType, i: InstanceType) {
    a == Pat || a == Bearer || (a == OAuth && i != Cloud)
  }

  /** `email:token`, UTF-8 encoded, as section 4 of RFC 4648 base64. */
  function BasicCredentials(email: string, token: string): (r: string)
    ensures Decode(r) == Some(Utf8(email + ":" + token))
  {
    DecodeEncode(Utf8(email + ":" + token));
    Encode(Utf8(email + ":" + token))
  }

  /** `_get_auth_header`. */
  function AuthHeader(email: string, token: string, a: AuthType, i: InstanceType): (r: string)
    ensures BearerHeader(a, i) ==> r == "Bearer " + token
    ensures !BearerHeader(a, i) ==> |r| >= 6 && r[..6] == "Basic " && Decode(r[6..]) == Some(Utf8(email + ":" + token))
  {
    match a
    case Pat => "Bearer " + token
    case Basic => "Basic " + BasicCredentials(email, token)
    case Bearer => "Bearer " + token
    case _ =>
      if i == Cloud then "Basic " + BasicCredentials(email, token) else "Bearer " + token
  }

  /** A bearer header does not depend on the e-mail address. */
  lemma BearerIgnoresEmail(e1: string, e2: string, token: string, a: AuthType, i: InstanceType)
    requires BearerHeader(a, i)
    ensures AuthHeader(e1, token, a, i) == AuthHeader(e2, token, a, i)
  {}

  /** When the e-mail address has no ':', the decoded basic credentials
      split at their first ':' into the e-mail and the token. */
  lemma BasicCredentialsSplit(email: string, token: string)
    requires ':' !in email
    ensures var d := Decode(BasicCredentials(email, token)).value; var k := |Utf8(email)|;
      k < |d| && d[..k] == Utf8(email) && d[k] == 58 && 58 !in d[..k] && d[k + 1..] == Utf8(token)
  {
    CredentialBytes(email, token);
    SplitAt(Utf8(email), 58, Utf8(token));
  }

  /** Splitting `a + [x] + b` at `|a|`. */
  lemma SplitAt<T>(a: seq<T>, x: T, b: seq<T>)
    ensures var d := a + [x] + b; |a| < |d| && d[..|a|] == a && d[|a|] == x && d[|a| + 1..] == b
  {
    var d := a + [x] + b;
    assert d[..|a|] == a;
    assert d[|a| + 1..] == b;
  }

  /** The UTF-8 bytes of `email:token` are those of the e-mail, the byte
      of ':', and those of the token. */
  lemma {:induction false} CredentialBytes(email: string, token: string)
    requires ':' !in email
    ensures Utf8(email + ":" + token) == Utf8(email) + [58] + Utf8(token)
    ensures 58 !in Utf8(email)
  {
    Utf8Concat(email + ":", token);
    Utf8Concat(email, ":");
    assert Utf8(":") == [58] by { assert Utf8(":") == Utf8Char(':') + Utf8([]); }
    NoColonByte(email);
  }

  /** No UTF-8 byte of a string without ':' is the byte of ':'. */
  lemma {:induction false} NoColonByte(s: string)
    requires ':' !in s
    ensures 58 !in Utf8(s)
  {
    if |s| > 0 {
      assert ':' !in s[1..];
      NoColonByte(s[1..]);
      assert s[0] != ':';
      assert 58 !in Utf8Char(s[0]);
    }
  }

  /** `_create_jira_client` uses token authentication for PAT, and for
      any type but BASIC on a Server instance; basic authentication
      otherwise. */
  predicate UsesTokenAuth(a: AuthType, i: InstanceType) {
    a == Pat || (i == Server && a != Basic)
  }

  /** On a Server instance the client and the header agree: token
      authentication exactly when the header is a bearer one. Elsewhere
      they disagree for BEARER, and for OAUTH on an auto-detected instance,
      where the header is a bearer one but the client authenticates with
      e-mail and token. */
  lemma ClientAgreesWithHeader(a: AuthType, i: InstanceType)
    ensures i == Server ==> (UsesTokenAuth(a, i) <==> BearerHeader(a, i))
    ensures i != Server ==> (UsesTokenAuth(a, i) <==> a == Pat)
    ensures BearerHeader(a, i) && !UsesTokenAuth(a, i) <==> i != Server && (a == Bearer || (a == OAuth && i == AutoDetect))
  {}

  // ---------------------------------------------------------------------
  // The manager's connection state

  datatype ConnectionStatus = Connected | Disconnected | Authenticating | Failed | Migrating

  function ConnectionStatusValue(s: ConnectionStatus): string {
    match s
    case Connected => "connected"
    case Disconnected => "disconnected"
    case Authenticating => "authenticating"
    case Failed => "failed"
    case Migrating => "migrating"
  }

  /** A client connected to one server. */
  datatype JiraClient = JiraClient(server: string)

  datatype Session = NoSession | OpenSession | ClosedSession

  /** The state `close` touches, and the flags it leaves alone. */
  datatype AuthManager = AuthManager(
    primary: Option<JiraClient>,
    cloud: Option<JiraClient>,
    status: ConnectionStatus,
    session: Session,
    migrationMode: bool,
    dualModeActive: bool)

  /** `JiraAuthManager(config)`: nothing connected yet. */
  function NewAuthManager(): (m: AuthManager)
    ensures m.primary.None? && m.cloud.None? && m.status == Disconnected
  {
    AuthManager(None, None, Disconnected, NoSession, false, false)
  }

  /** `close`: an open session is closed (not dropped), both clients are
      dropped and the status is DISCONNECTED; the migration flags stay. */
  function Close(m: AuthManager): (r: AuthManager)
    ensures r.primary.None? && r.cloud.None? && r.status == Disconnected
    ensures r.session != OpenSession
    ensures m.session == NoSession ==> r.session == NoSession
    ensures r.migrationMode == m.migrationMode && r.dualModeActive == m.dualModeActive
  {
    m.(primary := None, cloud := None, status := Disconnected,
       session := if m.session == OpenSession then ClosedSession else m.session)
  }

  /** Closing twice is closing once. */
  lemma CloseIdempotent(m: AuthManager)
    ensures Close(Close(m)) == Close(m)
  {}
}
