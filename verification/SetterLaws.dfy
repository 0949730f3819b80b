/** What a chain of the host's setters leaves behind, read off the chain itself: the last setter of
    a kind decides. */
module SetterLaws {
  import opened Common
  import opened Pairs
  import opened SecurityKeys
  import opened Options
  import F = FranzSecurity
  import ListCodecs

  // -- The last setter of a kind ------------------------------------------------------------------

  /** The sasl_* setters: each starts a mechanism anew. */
  predicate StartsSasl(s: Setter) {
    s.SaslPassword? || s.SaslAwsMskIam? || s.SaslOauthbearerOidc? || s.SaslGcpIam?
  }

  /** The setters that carry one argument of the TLS part or of a mechanism, or switch off a check. */
  datatype Kind =
    | CaFile | CaText | CertificateFiles | CertificateTexts | NoVerification | NoHostname
    | Region | Profile | Role | Scope | Extensions | Principal | CredentialsFile

  predicate IsOf(s: Setter, kind: Kind) {
    match kind
    case CaFile => s.TlsCaLocation?
    case CaText => s.TlsCaPem?
    case CertificateFiles => s.TlsClientCertificate?
    case CertificateTexts => s.TlsClientCertificatePem?
    case NoVerification => s.DisableCertificateVerification?
    case NoHostname => s.DisableHostnameVerification?
    case Region => s.SetAwsRegion?
    case Profile => s.SetAwsProfile?
    case Role => s.AwsAssumeRole?
    case Scope => s.OauthbearerScope?
    case Extensions => s.OauthbearerExtensions?
    case Principal => s.SetGcpPrincipal?
    case CredentialsFile => s.SetGcpCredentialsFile?
  }

  /** The last setter of the kind among the given ones. */
  function LastOf(setters: seq<Setter>, kind: Kind): (r: Option<Setter>)
    ensures r.Some? ==> IsOf(r.value, kind)
    ensures r.None? <==> forall i :: 0 <= i < |setters| ==> !IsOf(setters[i], kind)
  {
    if setters == [] then None
    else if IsOf(setters[|setters| - 1], kind) then Some(setters[|setters| - 1])
    else LastOf(setters[..|setters| - 1], kind)
  }

  /** Setter i starts the mechanism that is in force at the end of the chain. */
  predicate IsLastStart(setters: seq<Setter>, i: nat) {
    && i < |setters| && StartsSasl(setters[i])
    && forall j :: i < j < |setters| ==> !StartsSasl(setters[j])
  }

  // -- The mechanism ---------------------------------------------------------------------------------

  lemma {:induction false} NoStartNoSasl(setters: seq<Setter>)
    requires forall i :: 0 <= i < |setters| ==> !StartsSasl(setters[i])
    ensures Run(setters).sasl.None?
  {
    if setters != [] {
      NoStartNoSasl(setters[..|setters| - 1]);
      OthersStartNothing(None, setters[|setters| - 1]);
    }
  }

  /** The setters after i, one more. */
  lemma LastOfLonger(setters: seq<Setter>, i: nat, kind: Kind)
    requires i < |setters| - 1
    ensures var last := setters[|setters| - 1];
      LastOf(setters[i + 1..], kind) ==
      if IsOf(last, kind) then Some(last) else LastOf(setters[..|setters| - 1][i + 1..], kind)
  {
    var suffix := setters[i + 1..];
    assert suffix[..|suffix| - 1] == setters[..|setters| - 1][i + 1..];
  }

  function RegionOf(s: Option<Setter>): Option<string> {
    if s.Some? && s.value.SetAwsRegion? then Some(s.value.region) else None
  }

  function ProfileOf(s: Option<Setter>): Option<string> {
    if s.Some? && s.value.SetAwsProfile? then Some(s.value.profile) else None
  }

  function RoleArnOf(s: Option<Setter>): Option<string> {
    if s.Some? && s.value.AwsAssumeRole? then Some(s.value.roleArn) else None
  }

  function SessionNameOf(s: Option<Setter>): Option<string> {
    if s.Some? && s.value.AwsAssumeRole? then s.value.sessionName else None
  }

  function ScopeOf(s: Option<Setter>): Option<string> {
    if s.Some? && s.value.OauthbearerScope? then Some(s.value.scope) else None
  }

  function ExtensionsOf(s: Option<Setter>): seq<Pair> {
    if s.Some? && s.value.OauthbearerExtensions? then s.value.pairs else []
  }

  function PrincipalOf(s: Option<Setter>): Option<string> {
    if s.Some? && s.value.SetGcpPrincipal? then Some(s.value.principal) else None
  }

  function CredentialsFileOf(s: Option<Setter>): Option<string> {
    if s.Some? && s.value.SetGcpCredentialsFile? then Some(s.value.file) else None
  }

  lemma {:induction false} PasswordInForce(setters: seq<Setter>, i: nat)
    requires IsLastStart(setters, i) && setters[i].SaslPassword?
    ensures Run(setters).sasl == Some(UserPass(setters[i].scheme, setters[i].username, setters[i].password))
    decreases |setters|
  {
    if i < |setters| - 1 { PasswordInForce(setters[..|setters| - 1], i); }
  }

  /** A later setter refines the arguments of its own kind and leaves the others. */
  lemma AwsRefined(region: Option<string>, profile: Option<string>, arn: Option<string>, name: Option<string>, s: Setter)
    requires !StartsSasl(s)
    ensures SaslAfter(Some(HostSasl.AwsMskIam(region, profile, arn, name)), s) ==
      Some(HostSasl.AwsMskIam(
        if IsOf(s, Region) then RegionOf(Some(s)) else region,
        if IsOf(s, Profile) then ProfileOf(Some(s)) else profile,
        if IsOf(s, Role) then RoleArnOf(Some(s)) else arn,
        if IsOf(s, Role) then SessionNameOf(Some(s)) else name))
  {
  }

  lemma OidcRefined(url: string, id: string, secret: string, scope: Option<string>, extensions: seq<Pair>, s: Setter)
    requires !StartsSasl(s)
    ensures SaslAfter(Some(OauthbearerOidc(url, id, secret, scope, extensions)), s) ==
      Some(OauthbearerOidc(url, id, secret,
        if IsOf(s, Scope) then ScopeOf(Some(s)) else scope,
        if IsOf(s, Extensions) then ExtensionsOf(Some(s)) else extensions))
  {
  }

  lemma GcpRefined(principal: Option<string>, file: Option<string>, s: Setter)
    requires !StartsSasl(s)
    ensures SaslAfter(Some(HostSasl.GcpIam(principal, file)), s) ==
      Some(HostSasl.GcpIam(
        if IsOf(s, Principal) then PrincipalOf(Some(s)) else principal,
        if IsOf(s, CredentialsFile) then CredentialsFileOf(Some(s)) else file))
  {
  }

  lemma SaslOfRun(setters: seq<Setter>)
    requires setters != []
    ensures Run(setters).sasl == SaslAfter(Run(setters[..|setters| - 1]).sasl, setters[|setters| - 1])
  {
  }

  lemma {:induction false} AwsInForce(setters: seq<Setter>, i: nat)
    requires IsLastStart(setters, i) && setters[i].SaslAwsMskIam?
    ensures var after := setters[i + 1..];
      Run(setters).sasl == Some(HostSasl.AwsMskIam(
        RegionOf(LastOf(after, Region)), ProfileOf(LastOf(after, Profile)),
        RoleArnOf(LastOf(after, Role)), SessionNameOf(LastOf(after, Role))))
    decreases |setters|
  {
    if i < |setters| - 1 {
      AwsInForce(setters[..|setters| - 1], i);
      var last, before := setters[|setters| - 1], setters[..|setters| - 1][i + 1..];
      SaslOfRun(setters);
      AwsRefined(RegionOf(LastOf(before, Region)), ProfileOf(LastOf(before, Profile)),
                 RoleArnOf(LastOf(before, Role)), SessionNameOf(LastOf(before, Role)), last);
      LastOfLonger(setters, i, Region);
      LastOfLonger(setters, i, Profile);
      LastOfLonger(setters, i, Role);
    }
  }

  lemma {:induction false} OidcInForce(setters: seq<Setter>, i: nat)
    requires IsLastStart(setters, i) && setters[i].SaslOauthbearerOidc?
    ensures var after := setters[i + 1..];
      Run(setters).sasl == Some(OauthbearerOidc(
        setters[i].url, setters[i].clientId, setters[i].clientSecret,
        ScopeOf(LastOf(after, Scope)), ExtensionsOf(LastOf(after, Extensions))))
    decreases |setters|
  {
    if i < |setters| - 1 {
      OidcInForce(setters[..|setters| - 1], i);
      var last, before := setters[|setters| - 1], setters[..|setters| - 1][i + 1..];
      SaslOfRun(setters);
      OidcRefined(setters[i].url, setters[i].clientId, setters[i].clientSecret,
                  ScopeOf(LastOf(before, Scope)), ExtensionsOf(LastOf(before, Extensions)), last);
      LastOfLonger(setters, i, Scope);
      LastOfLonger(setters, i, Extensions);
    }
  }

  lemma {:induction false} GcpInForce(setters: seq<Setter>, i: nat)
    requires IsLastStart(setters, i) && setters[i].SaslGcpIam?
    ensures var after := setters[i + 1..];
      Run(setters).sasl == Some(HostSasl.GcpIam(
        PrincipalOf(LastOf(after, Principal)), CredentialsFileOf(LastOf(after, CredentialsFile))))
    decreases |setters|
  {
    if i < |setters| - 1 {
      GcpInForce(setters[..|setters| - 1], i);
      var last, before := setters[|setters| - 1], setters[..|setters| - 1][i + 1..];
      SaslOfRun(setters);
      GcpRefined(PrincipalOf(LastOf(before, Principal)), CredentialsFileOf(LastOf(before, CredentialsFile)), last);
      LastOfLonger(setters, i, Principal);
      LastOfLonger(setters, i, CredentialsFile);
    }
  }

  lemma OthersStartNothing(sasl: Option<HostSasl>, s: Setter)
    requires !StartsSasl(s)
    ensures SaslAfter(sasl, s).None? <==> sasl.None?
  {
  }

  lemma {:induction false} LastStartExists(setters: seq<Setter>, j: nat) returns (i: nat)
    requires j < |setters| && StartsSasl(setters[j])
    ensures IsLastStart(setters, i)
  {
    if StartsSasl(setters[|setters| - 1]) {
      i := |setters| - 1;
    } else {
      i := LastStartExists(setters[..|setters| - 1], j);
    }
  }

  /** A chain leaves a mechanism behind exactly when it holds a sasl_* setter. */
  lemma SaslIsAskedFor(setters: seq<Setter>)
    ensures Run(setters).sasl.Some? <==> exists i :: IsLastStart(setters, i)
  {
    if i :| IsLastStart(setters, i) { StartMeansSasl(setters, i); }
    if forall i :: 0 <= i < |setters| ==> !StartsSasl(setters[i]) {
      NoStartNoSasl(setters);
    } else {
      var j :| 0 <= j < |setters| && StartsSasl(setters[j]);
      var i := LastStartExists(setters, j);
    }
  }

  lemma {:induction false} StartMeansSasl(setters: seq<Setter>, i: nat)
    requires i < |setters| && StartsSasl(setters[i])
    ensures Run(setters).sasl.Some?
    decreases |setters|
  {
    if i < |setters| - 1 { StartMeansSasl(setters[..|setters| - 1], i); }
  }

  // -- TLS --------------------------------------------------------------------------------------------

  /** The setters that turn TLS on: every tls_* setter, and the two cloud mechanisms. */
  predicate AsksForTls(s: Setter) {
    || s.EnableTls? || s.TlsCaLocation? || s.TlsCaPem? || s.TlsClientCertificate? || s.TlsClientCertificatePem?
    || s.DisableCertificateVerification? || s.DisableHostnameVerification? || s.SaslAwsMskIam? || s.SaslGcpIam?
  }

  lemma {:induction false} TlsIsAskedFor(setters: seq<Setter>)
    ensures Run(setters).tls <==> exists i :: 0 <= i < |setters| && AsksForTls(setters[i])
  {
    if setters != [] {
      var front, last := setters[..|setters| - 1], |setters| - 1;
      TlsIsAskedFor(front);
      assert Run(setters).tls <==> Run(front).tls || AsksForTls(setters[last]);
      if i :| 0 <= i < |front| && AsksForTls(front[i]) { assert AsksForTls(setters[i]); }
      if i :| 0 <= i < |setters| && AsksForTls(setters[i]) { assert i < |front| ==> AsksForTls(front[i]); }
    }
  }

  /** The argument of the setter that goes under an ssl key. */
  function SslArgument(s: Option<Setter>, k: SecurityKey): Option<string> {
    if s.None? then None
    else
      match s.value
      case TlsCaLocation(path) => if k.CaLocation? then Some(path) else None
      case TlsCaPem(pem) => if k.CaPem? then Some(pem) else None
      case TlsClientCertificate(certificate, key) =>
        if k.CertLocation? then Some(certificate) else if k.KeyLocation? then Some(key) else None
      case TlsClientCertificatePem(certificate, key) =>
        if k.CertPem? then Some(certificate) else if k.KeyPem? then Some(key) else None
      case DisableCertificateVerification => if k.VerifyCertificates? then Some("false") else None
      case DisableHostnameVerification => if k.EndpointIdentification? then Some("none") else None
      case _ => None
  }

  /** The setter kind that writes an ssl key. */
  function WriterOf(k: SecurityKey): Option<Kind> {
    match k
    case CaLocation => Some(CaFile)
    case CaPem => Some(CaText)
    case CertLocation => Some(CertificateFiles)
    case KeyLocation => Some(CertificateFiles)
    case CertPem => Some(CertificateTexts)
    case KeyPem => Some(CertificateTexts)
    case VerifyCertificates => Some(NoVerification)
    case EndpointIdentification => Some(NoHostname)
    case _ => None
  }

  lemma OneSslPair(key: SecurityKey, value: string, k: SecurityKey)
    ensures Found(LastWins([(key, value)]), k) == if k == key then Some(value) else None
  {
    assert [(key, value)][..0] == [];
  }

  lemma TwoSslPairs(a: SecurityKey, va: string, b: SecurityKey, vb: string, k: SecurityKey)
    requires a != b
    ensures Found(LastWins([(a, va), (b, vb)]), k) ==
      if k == a then Some(va) else if k == b then Some(vb) else None
  {
    OneSslPair(a, va, k);
    assert [(a, va), (b, vb)][..1] == [(a, va)];
  }

  lemma SslPairsOfOne(s: Setter, k: SecurityKey)
    ensures Found(LastWins(SslPairs(s)), k) == SslArgument(Some(s), k)
  {
    match s
    case TlsCaLocation(path) => OneSslPair(CaLocation, path, k);
    case TlsCaPem(pem) => OneSslPair(CaPem, pem, k);
    case TlsClientCertificate(c, key) => TwoSslPairs(CertLocation, c, KeyLocation, key, k);
    case TlsClientCertificatePem(c, key) => TwoSslPairs(CertPem, c, KeyPem, key, k);
    case DisableCertificateVerification => OneSslPair(VerifyCertificates, "false", k);
    case DisableHostnameVerification => OneSslPair(EndpointIdentification, "none", k);
    case _ =>
  }

  lemma WriterWrites(s: Setter, k: SecurityKey)
    requires WriterOf(k).Some?
    ensures SslArgument(Some(s), k).Some? <==> IsOf(s, WriterOf(k).value)
  {
  }

  /** Each ssl key holds the argument of the last setter of its kind, and nothing without one. */
  lemma {:induction false} LastWriterDecides(setters: seq<Setter>, k: SecurityKey)
    requires WriterOf(k).Some?
    ensures Found(LastWins(Run(setters).ssl), k) == SslArgument(LastOf(setters, WriterOf(k).value), k)
  {
    if setters != [] {
      var front, last := setters[..|setters| - 1], setters[|setters| - 1];
      LastWriterDecides(front, k);
      LastWinsOfConcat(Run(front).ssl, SslPairs(last));
      SslPairsOfOne(last, k);
      WriterWrites(last, k);
    }
  }

  // -- Ordinary options ---------------------------------------------------------------------------------

  /** The value of the last ordinary option of a name. */
  function LastOption(setters: seq<Setter>, name: string): Option<string> {
    if setters == [] then None
    else
      match setters[|setters| - 1]
      case ClientOption(n, value) =>
        if n == name then Some(value) else LastOption(setters[..|setters| - 1], name)
      case _ => LastOption(setters[..|setters| - 1], name)
  }

  lemma SameKeySameName(a: string, b: string)
    ensures KeyFor(a) == KeyFor(b) <==> a == b
  {
    NamesAndKeysMatch(a, Protocol);
    NamesAndKeysMatch(b, Protocol);
  }

  lemma {:induction false} LastOptionDecides(setters: seq<Setter>, name: string)
    ensures Found(LastWins(Run(setters).entries), KeyFor(name)) == LastOption(setters, name)
  {
    if setters != [] {
      var front, last := setters[..|setters| - 1], setters[|setters| - 1];
      LastOptionDecides(front, name);
      LastWinsOfConcat(Run(front).entries, OrdinaryPairs(last));
      if last.ClientOption? {
        SameKeySameName(last.name, name);
        assert OrdinaryPairs(last)[..0] == [];
        assert LastWins(OrdinaryPairs(last)) == map[KeyFor(last.name) := last.value];
      }
    }
  }
}
