/** The host's typed option builder. */
module Options {
  import opened Common
  import opened Pairs
  import opened SecurityKeys
  import F = FranzSecurity
  import ListCodecs

  datatype HostSasl =
    | UserPass(scheme: F.PasswordScheme, username: string, password: string)
    | AwsMskIam(region: Option<string>, profile: Option<string>, roleArn: Option<string>,
                sessionName: Option<string>)
    | OauthbearerOidc(endpoint: string, clientId: string, clientSecret: string, scope: Option<string>,
                      extensions: seq<Pair>)
    | GcpIam(principal: Option<string>, credentialsFile: Option<string>)

  /** The builder's fields. */
  datatype Settings = Settings(
    entries: seq<(Key, string)>,
    tls: bool,
    ssl: seq<(SecurityKey, string)>,
    sasl: Option<HostSasl>)

  const NEW := Settings([], false, [], None)

  datatype Setter =
    | ClientOption(name: string, value: string) // kafka_option, or a client option with a setter of its own
    | EnableTls
    | TlsCaLocation(path: string)
    | TlsCaPem(pem: string)
    | TlsClientCertificate(certificatePath: string, keyPath: string)
    | TlsClientCertificatePem(certificatePem: string, keyPem: string)
    | DisableCertificateVerification
    | DisableHostnameVerification
    | SaslPassword(scheme: F.PasswordScheme, username: string, password: string)
    | SaslAwsMskIam
    | SetAwsRegion(region: string)
    | SetAwsProfile(profile: string)
    | AwsAssumeRole(roleArn: string, sessionName: Option<string>)
    | SaslOauthbearerOidc(url: string, clientId: string, clientSecret: string)
    | OauthbearerScope(scope: string)
    | OauthbearerExtensions(pairs: seq<Pair>)
    | SaslGcpIam
    | SetGcpPrincipal(principal: string)
    | SetGcpCredentialsFile(file: string)

  // -- What each setter means ----------------------------------------------------------------------

  /** The ssl.* pairs a setter writes. */
  function SslPairs(s: Setter): seq<(SecurityKey, string)> {
    match s
    case TlsCaLocation(path) => [(CaLocation, path)]
    case TlsCaPem(pem) => [(CaPem, pem)]
    case TlsClientCertificate(c, k) => [(CertLocation, c), (KeyLocation, k)]
    case TlsClientCertificatePem(c, k) => [(CertPem, c), (KeyPem, k)]
    case DisableCertificateVerification => [(VerifyCertificates, "false")]
    case DisableHostnameVerification => [(EndpointIdentification, "none")]
    case _ => []
  }

  /** The mechanism after a setter: a sasl_* setter starts a new one, a refining setter changes
      the current one if it is of its kind and does nothing otherwise. */
  function SaslAfter(sasl: Option<HostSasl>, s: Setter): Option<HostSasl> {
    match s
    case SaslPassword(scheme, u, p) => Some(UserPass(scheme, u, p))
    case SaslAwsMskIam => Some(HostSasl.AwsMskIam(None, None, None, None))
    case SaslOauthbearerOidc(url, id, secret) => Some(OauthbearerOidc(url, id, secret, None, []))
    case SaslGcpIam => Some(HostSasl.GcpIam(None, None))
    case SetAwsRegion(r) =>
      if sasl.Some? && sasl.value.AwsMskIam? then Some(sasl.value.(region := Some(r))) else sasl
    case SetAwsProfile(p) =>
      if sasl.Some? && sasl.value.AwsMskIam? then Some(sasl.value.(profile := Some(p))) else sasl
    case AwsAssumeRole(arn, name) =>
      if sasl.Some? && sasl.value.AwsMskIam? then Some(sasl.value.(roleArn := Some(arn), sessionName := name)) else sasl
    case OauthbearerScope(scope) =>
      if sasl.Some? && sasl.value.OauthbearerOidc? then Some(sasl.value.(scope := Some(scope))) else sasl
    case OauthbearerExtensions(pairs) =>
      if sasl.Some? && sasl.value.OauthbearerOidc? then Some(sasl.value.(extensions := pairs)) else sasl
    case SetGcpPrincipal(p) =>
      if sasl.Some? && sasl.value.GcpIam? then Some(sasl.value.(principal := Some(p))) else sasl
    case SetGcpCredentialsFile(file) =>
      if sasl.Some? && sasl.value.GcpIam? then Some(sasl.value.(credentialsFile := Some(file))) else sasl
    case _ => sasl
  }

  function OrdinaryPairs(s: Setter): seq<(Key, string)> {
    match s
    case ClientOption(name, value) => [(KeyFor(name), value)]
    case _ => []
  }

  /** The setters that only mean something after their own sasl_* setter. */
  predicate Refines(s: Setter) {
    || s.SetAwsRegion? || s.SetAwsProfile? || s.AwsAssumeRole? || s.OauthbearerScope?
    || s.OauthbearerExtensions? || s.SetGcpPrincipal? || s.SetGcpCredentialsFile?
  }

  predicate TurnsTlsOn(s: Setter) {
    s.EnableTls? || SslPairs(s) != [] || s.SaslAwsMskIam? || s.SaslGcpIam?
  }

  function Apply(o: Settings, s: Setter): Settings {
    Settings(o.entries + OrdinaryPairs(s), o.tls || TurnsTlsOn(s), o.ssl + SslPairs(s), SaslAfter(o.sasl, s))
  }

  /** A chain of setters on a new builder. */
  function Run(setters: seq<Setter>): Settings {
    if setters == [] then NEW else Apply(Run(setters[..|setters| - 1]), setters[|setters| - 1])
  }

  // -- What the builder emits ----------------------------------------------------------------------

  function ProtocolName(o: Settings): string {
    if o.tls then if o.sasl.Some? then "sasl_ssl" else "ssl" else "sasl_plaintext"
  }

  function MechanismText(scheme: F.PasswordScheme): string {
    match scheme
    case Plain => "PLAIN"
    case ScramSha256 => "SCRAM-SHA-256"
    case ScramSha512 => "SCRAM-SHA-512"
  }

  function IfSet(k: SecurityKey, value: Option<string>): seq<(SecurityKey, string)> {
    match value
    case None => []
    case Some(v) => [(k, v)]
  }

  function SaslPairs(sasl: HostSasl): seq<(SecurityKey, string)> {
    match sasl
    case UserPass(scheme, u, p) => [(Mechanism, MechanismText(scheme)), (Username, u), (Password, p)]
    case AwsMskIam(region, profile, arn, name) =>
      [(Mechanism, "AWS_MSK_IAM")] + IfSet(AwsRegion, region) + IfSet(AwsProfile, profile)
        + IfSet(AwsRoleArn, arn) + IfSet(AwsRoleSessionName, name)
    case OauthbearerOidc(url, id, secret, scope, extensions) =>
      [(Mechanism, "OAUTHBEARER"), (OAuthTokenEndpoint, url), (OAuthClientId, id), (OAuthClientSecret, secret)]
        + IfSet(OAuthScope, scope)
        + (if extensions == [] then [] else [(OAuthExtensions, ListCodecs.JoinExtensions(extensions))])
    case GcpIam(principal, file) =>
      [(Mechanism, "OAUTHBEARER"), (OAuthMethod, "gcp")]
        + IfSet(GcpPrincipal, principal) + IfSet(GcpCredentialsFile, file)
  }

  /** The security pairs, none when no security setter was used. */
  function SecurityPairs(o: Settings): seq<(SecurityKey, string)> {
    if !o.tls && o.sasl.None? then []
    else [(Protocol, ProtocolName(o))] + o.ssl + (if o.sasl.None? then [] else SaslPairs(o.sasl.value))
  }

  function Tagged(pairs: seq<(SecurityKey, string)>): (r: seq<(Key, string)>)
    ensures |r| == |pairs|
  {
    seq(|pairs|, i requires 0 <= i < |pairs| => (Secure(pairs[i].0), pairs[i].1))
  }

  function Entries(o: Settings): seq<(Key, string)> {
    o.entries + Tagged(SecurityPairs(o))
  }

  /** The keys the mechanism's setters can write, and the alias of the mechanism. */
  function SaslKeys(sasl: HostSasl): seq<SecurityKey> {
    match sasl
    case UserPass(_, _, _) => [Mechanism, MechanismsAlias, Username, Password]
    case AwsMskIam(_, _, _, _) =>
      [Mechanism, MechanismsAlias, AwsRegion, AwsProfile, AwsRoleArn, AwsRoleSessionName]
    case OauthbearerOidc(_, _, _, _, _) =>
      [Mechanism, MechanismsAlias, OAuthTokenEndpoint, OAuthClientId, OAuthClientSecret, OAuthScope,
       OAuthExtensions]
    case GcpIam(_, _) => [Mechanism, MechanismsAlias, OAuthMethod, GcpPrincipal, GcpCredentialsFile]
  }

  function KeysOf(pairs: seq<(SecurityKey, string)>): (r: seq<SecurityKey>)
    ensures |r| == |pairs| && forall i :: 0 <= i < |r| ==> r[i] == pairs[i].0
  {
    seq(|pairs|, i requires 0 <= i < |pairs| => pairs[i].0)
  }

  /** typed_security_keys. */
  function TypedSecurityKeys(o: Settings): seq<SecurityKey> {
    if !o.tls && o.sasl.None? then []
    else [Protocol] + KeysOf(o.ssl) + (if o.sasl.None? then [] else SaslKeys(o.sasl.value))
  }

  /** No ordinary pair has a key that a typed security setter also writes. */
  predicate Unambiguous(o: Settings) {
    forall i :: 0 <= i < |o.entries| ==>
      o.entries[i].0.Other? || o.entries[i].0.key !in TypedSecurityKeys(o)
  }

  // -- The builder in place -----------------------------------------------------------------------

  class Options {
    var entries: seq<(Key, string)>
    var tls: bool
    var ssl: seq<(SecurityKey, string)>
    var sasl: Option<HostSasl>

    function Current(): Settings
      reads this
    {
      Settings(entries, tls, ssl, sasl)
    }

    constructor ()
      ensures Current() == NEW
    {
      entries, tls, ssl, sasl := [], false, [], None;
    }

    method Push(key: Key, value: string)
      modifies this`entries
      ensures entries == old(entries) + [(key, value)]
    {
      entries := entries + [(key, value)];
    }

    method PushSsl(key: SecurityKey, value: string)
      modifies this`tls, this`ssl
      ensures tls && ssl == old(ssl) + [(key, value)]
    {
      tls := true;
      ssl := ssl + [(key, value)];
    }

    method SetTlsOption(s: Setter)
      requires SslPairs(s) != []
      modifies this
      ensures Current() == Apply(old(Current()), s)
    {
      match s
      case TlsCaLocation(path) => PushSsl(CaLocation, path);
      case TlsCaPem(pem) => PushSsl(CaPem, pem);
      case TlsClientCertificate(c, k) => PushSsl(CertLocation, c); PushSsl(KeyLocation, k);
      case TlsClientCertificatePem(c, k) => PushSsl(CertPem, c); PushSsl(KeyPem, k);
      case DisableCertificateVerification => PushSsl(VerifyCertificates, "false");
      case DisableHostnameVerification => PushSsl(EndpointIdentification, "none");
    }

    method Refine(s: Setter)
      requires Refines(s)
      modifies this`sasl
      ensures sasl == SaslAfter(old(sasl), s)
    {
      match s
      case SetAwsRegion(r) =>
        if sasl.Some? && sasl.value.AwsMskIam? { sasl := Some(sasl.value.(region := Some(r))); }
      case SetAwsProfile(p) =>
        if sasl.Some? && sasl.value.AwsMskIam? { sasl := Some(sasl.value.(profile := Some(p))); }
      case AwsAssumeRole(arn, name) =>
        if sasl.Some? && sasl.value.AwsMskIam? {
          sasl := Some(sasl.value.(roleArn := Some(arn), sessionName := name));
        }
      case OauthbearerScope(scope) =>
        if sasl.Some? && sasl.value.OauthbearerOidc? { sasl := Some(sasl.value.(scope := Some(scope))); }
      case OauthbearerExtensions(pairs) =>
        if sasl.Some? && sasl.value.OauthbearerOidc? { sasl := Some(sasl.value.(extensions := pairs)); }
      case SetGcpPrincipal(p) =>
        if sasl.Some? && sasl.value.GcpIam? { sasl := Some(sasl.value.(principal := Some(p))); }
      case SetGcpCredentialsFile(file) =>
        if sasl.Some? && sasl.value.GcpIam? { sasl := Some(sasl.value.(credentialsFile := Some(file))); }
      case _ =>
    }

    /** One call of a setter. */
    method Set(s: Setter)
      modifies this
      ensures Current() == Apply(old(Current()), s)
    {
      if SslPairs(s) != [] {
        SetTlsOption(s);
      } else if Refines(s) {
        Refine(s);
      } else {
        match s
        case ClientOption(name, value) => Push(KeyFor(name), value);
        case EnableTls => tls := true;
        case SaslPassword(scheme, u, p) => sasl := Some(UserPass(scheme, u, p));
        case SaslAwsMskIam =>
          tls := true;
          sasl := Some(HostSasl.AwsMskIam(None, None, None, None));
        case SaslOauthbearerOidc(url, id, secret) => sasl := Some(OauthbearerOidc(url, id, secret, None, []));
        case SaslGcpIam =>
          tls := true;
          sasl := Some(HostSasl.GcpIam(None, None));
        case _ =>
      }
      var o := old(Current());
      assert entries == o.entries + OrdinaryPairs(s);
    }

    /** The mechanism's part of entries: one push after another. */
    method SaslEntries(mechanism: HostSasl) returns (out: seq<(SecurityKey, string)>)
      ensures out == SaslPairs(mechanism)
    {
      match mechanism
      case UserPass(scheme, username, password) =>
        out := [(Mechanism, MechanismText(scheme))];
        out := out + [(Username, username)];
        out := out + [(Password, password)];
      case AwsMskIam(region, profile, roleArn, sessionName) =>
        out := [(Mechanism, "AWS_MSK_IAM")];
        if region.Some? { out := out + [(AwsRegion, region.value)]; }
        if profile.Some? { out := out + [(AwsProfile, profile.value)]; }
        if roleArn.Some? { out := out + [(AwsRoleArn, roleArn.value)]; }
        if sessionName.Some? { out := out + [(AwsRoleSessionName, sessionName.value)]; }
      case OauthbearerOidc(endpoint, clientId, clientSecret, scope, extensions) =>
        out := [(Mechanism, "OAUTHBEARER")];
        out := out + [(OAuthTokenEndpoint, endpoint)];
        out := out + [(OAuthClientId, clientId)];
        out := out + [(OAuthClientSecret, clientSecret)];
        if scope.Some? { out := out + [(OAuthScope, scope.value)]; }
        if extensions != [] { out := out + [(OAuthExtensions, ListCodecs.JoinExtensions(extensions))]; }
      case GcpIam(principal, credentialsFile) =>
        out := [(Mechanism, "OAUTHBEARER")];
        out := out + [(OAuthMethod, "gcp")];
        if principal.Some? { out := out + [(GcpPrincipal, principal.value)]; }
        if credentialsFile.Some? { out := out + [(GcpCredentialsFile, credentialsFile.value)]; }
    }

    /** entries. */
    method AllEntries() returns (out: seq<(Key, string)>)
      ensures out == Entries(Current())
    {
      out := entries;
      if tls || sasl.Some? {
        var protocol := if tls && sasl.Some? then "sasl_ssl" else if tls then "ssl" else "sasl_plaintext";
        var security := [(Protocol, protocol)] + ssl;
        if sasl.Some? {
          var pairs := SaslEntries(sasl.value);
          security := security + pairs;
        }
        out := out + Tagged(security);
        assert security == SecurityPairs(Current());
      }
    }

    /** validate. */
    method Validate() returns (ok: bool)
      ensures ok <==> Unambiguous(Current())
    {
      var typedKeys := TypedSecurityKeys(Current());
      if typedKeys == [] { return true; }
      var conflicts: seq<SecurityKey> := [];
      for i := 0 to |entries|
        invariant conflicts == [] <==>
          forall j :: 0 <= j < i ==> entries[j].0.Other? || entries[j].0.key !in typedKeys
      {
        if entries[i].0.Secure? && entries[i].0.key in typedKeys {
          conflicts := conflicts + [entries[i].0.key];
        }
      }
      ok := conflicts == [];
    }
  }

  // -- Facts about every chain ---------------------------------------------------------------------

  /** An ssl pair as a typed setter writes it. */
  predicate TypedSslPair(pair: (SecurityKey, string)) {
    || pair.0.CaLocation? || pair.0.CaPem? || pair.0.CertLocation? || pair.0.KeyLocation?
    || pair.0.CertPem? || pair.0.KeyPem?
    || pair == (VerifyCertificates, "false") || pair == (EndpointIdentification, "none")
  }

  predicate Consistent(o: Settings) {
    && (forall i :: 0 <= i < |o.ssl| ==> TypedSslPair(o.ssl[i]))
    && (o.ssl != [] ==> o.tls)
    && (o.sasl.Some? && (o.sasl.value.AwsMskIam? || o.sasl.value.GcpIam?) ==> o.tls)
  }

  lemma {:induction false} EveryChainIsConsistent(setters: seq<Setter>)
    ensures Consistent(Run(setters))
  {
    if setters != [] {
      EveryChainIsConsistent(setters[..|setters| - 1]);
      ApplyKeepsConsistent(Run(setters[..|setters| - 1]), setters[|setters| - 1]);
    }
  }

  lemma ApplyKeepsConsistent(o: Settings, s: Setter)
    requires Consistent(o)
    ensures Consistent(Apply(o, s))
  {
    SslPairsAreTyped(s);
    SaslKeepsTls(o, s);
  }

  lemma SslPairsAreTyped(s: Setter)
    ensures forall i :: 0 <= i < |SslPairs(s)| ==> TypedSslPair(SslPairs(s)[i])
  {
  }

  lemma SaslKeepsTls(o: Settings, s: Setter)
    requires Consistent(o)
    ensures var after := SaslAfter(o.sasl, s);
      after.Some? && (after.value.AwsMskIam? || after.value.GcpIam?) ==> o.tls || TurnsTlsOn(s)
  {
  }

  /** The typed keys cover everything the security part emits. */
  lemma EmittedKeysAreTyped(o: Settings, i: nat)
    requires i < |SecurityPairs(o)|
    ensures SecurityPairs(o)[i].0 in TypedSecurityKeys(o)
  {
    if i <= |o.ssl| {
      assert TypedSecurityKeys(o)[i] == SecurityPairs(o)[i].0;
    } else {
      SaslPairsAreTyped(o.sasl.value, i - 1 - |o.ssl|);
      assert forall k :: k in SaslKeys(o.sasl.value) ==> k in TypedSecurityKeys(o);
    }
  }

  lemma SaslPairsAreTyped(sasl: HostSasl, j: nat)
    requires j < |SaslPairs(sasl)|
    ensures SaslPairs(sasl)[j].0 in SaslKeys(sasl)
  {
  }
}
