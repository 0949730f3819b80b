/** The bridge's security unit: keys are collected first, then validated and assembled together.

    Reading files, parsing certificates, resolving cloud credentials and fetching a first token
    are given as outcomes. */
module FranzSecurity {
  import opened Common
  import opened Text
  import opened SecurityKeys
  import ListCodecs

  // -- Collecting -----------------------------------------------------------------------------

  /** The string fields of the struct, each under the key it is collected from; a field that is
      absent is the empty string. */
  type Fields = map<SecurityKey, string>

  function Get(f: Fields, k: SecurityKey): string {
    if k in f then f[k] else ""
  }

  /** The two names of the mechanism share a field. */
  function FieldOf(k: SecurityKey): SecurityKey {
    if k.MechanismsAlias? then Mechanism else k
  }

  /** What a collector stores. */
  function Stored(k: SecurityKey, value: string): string {
    match k
    case Protocol => Lower(Trim(value))
    case VerifyCertificates => Lower(Trim(value))
    case EndpointIdentification => Lower(Trim(value))
    case OAuthMethod => Lower(Trim(value))
    case AwsRegion => Trim(value)
    case AwsProfile => Trim(value)
    case AwsRoleArn => Trim(value)
    case AwsRoleSessionName => Trim(value)
    case OAuthTokenEndpoint => Trim(value)
    case OAuthScope => Trim(value)
    case GcpPrincipal => Trim(value)
    case GcpCredentialsFile => Trim(value)
    case _ => value
  }

  function Collected(f: Fields, k: SecurityKey, value: string): Fields {
    f[FieldOf(k) := Stored(k, value)]
  }

  class FranzSecurity {
    var fields: Fields
    var sawKey: bool

    constructor ()
      ensures fields == map[] && !sawKey
    {
      fields, sawKey := map[], false;
    }

    /** collect. */
    method Collect(key: Key, value: string) returns (ok: bool)
      modifies this
      ensures ok == key.Secure?
      ensures ok ==> sawKey && fields == Collected(old(fields), key.key, value)
      ensures !ok ==> unchanged(this)
    {
      match key
      case Other(_) => ok := false;
      case Secure(k) =>
        fields := fields[FieldOf(k) := Stored(k, value)];
        sawKey := true;
        ok := true;
    }
  }

  // -- Questions about the collected keys ---------------------------------------------------------

  predicate HasAny(f: Fields, keys: seq<SecurityKey>) {
    exists k :: k in keys && Get(f, k) != ""
  }

  const SSL_FIELDS: seq<SecurityKey> := [
    CaLocation, CaPem, CertLocation, KeyLocation, CertPem, KeyPem, KeyPassword, VerifyCertificates,
    EndpointIdentification]

  const AWS_FIELDS: seq<SecurityKey> := [AwsRegion, AwsProfile, AwsRoleArn, AwsRoleSessionName]

  const OIDC_FIELDS: seq<SecurityKey> := [
    OAuthTokenEndpoint, OAuthClientId, OAuthClientSecret, OAuthScope, OAuthExtensions]

  const OAUTH_FIELDS: seq<SecurityKey> := OIDC_FIELDS + [OAuthMethod]

  const GCP_FIELDS: seq<SecurityKey> := [GcpPrincipal, GcpCredentialsFile]

  predicate HasSaslKeys(f: Fields) {
    || Get(f, Mechanism) != "" || Get(f, Username) != "" || Get(f, Password) != ""
    || HasAny(f, AWS_FIELDS) || HasAny(f, OAUTH_FIELDS) || HasAny(f, GCP_FIELDS)
  }

  // -- Validating and assembling --------------------------------------------------------------------

  datatype SecurityError =
    // the keys do not fit together
    | ProtocolMissing | ProtocolUnknown | PlaintextConflict | SaslKeysNeedSasl | SslKeysNeedSsl
    | MechanismMissing | MechanismUnsupported | KerberosUnsupported
    | AwsKeysOrphaned | OAuthKeysOrphaned | GcpKeysOrphaned
    | AwsNeedsTls | GcpNeedsTls | CredentialsUnused | OidcKeysUnused | MethodUnsupported
    | KeyPasswordUnsupported | VerificationUnknown | EndpointUnknown
    // a value is missing, doubled or malformed
    | CaTwice | CertificateTwice | CertificateHalf | UsernameMissing | PasswordMissing
    | SessionNameWithoutRole | TokenEndpointMissing | ClientCredentialsMissing | ExtensionsMalformed
    // material that cannot be read
    | CaUnreadable | CaUnparseable | CertificateUnreadable
    | AwsUnresolved | GcpUnresolved | TokenUnavailable

  /** The errors that say the keys themselves contradict each other, whatever their values. */
  predicate Structural(e: SecurityError) {
    || e.ProtocolMissing? || e.ProtocolUnknown? || e.PlaintextConflict? || e.SaslKeysNeedSasl?
    || e.SslKeysNeedSsl? || e.MechanismMissing? || e.MechanismUnsupported? || e.KerberosUnsupported?
    || e.AwsKeysOrphaned? || e.OAuthKeysOrphaned? || e.GcpKeysOrphaned? || e.AwsNeedsTls? || e.GcpNeedsTls?
    || e.CredentialsUnused? || e.OidcKeysUnused? || e.MethodUnsupported? || e.KeyPasswordUnsupported?
    || e.VerificationUnknown? || e.EndpointUnknown?
  }

  /** How the outside world answers. */
  datatype World = World(
    caReadable: bool,
    caParses: bool,
    certificateLoads: bool,
    awsResolves: bool,
    gcpResolves: bool,
    tokenFetched: bool)

  datatype Roots = SystemRoots | FileRoots(path: string) | PemRoots(pem: string)

  datatype ClientCertificate =
    NoCertificate | FileCertificate(cert: string, key: string) | PemCertificate(cert: string, key: string)

  datatype Verification = Full | ChainOnly | Off

  datatype Tls = Tls(roots: Roots, certificate: ClientCertificate, verification: Verification)

  datatype PasswordScheme = Plain | ScramSha256 | ScramSha512

  datatype Sasl =
    | UserPass(scheme: PasswordScheme, username: string, password: string)
    | AwsMskIam(region: string, profile: string, roleArn: string, sessionName: string)
    | Oidc(endpoint: string, clientId: string, clientSecret: string, scope: string,
           extensions: map<string, string>)
    | GcpIam(principal: string, credentialsFile: string)

  datatype Wiring = Wiring(tls: Option<Tls>, sasl: Option<Sasl>)

  function BuildRoots(f: Fields, w: World): Result<Roots, SecurityError> {
    var location, pem := Get(f, CaLocation), Get(f, CaPem);
    if location != "" && pem != "" then Err(CaTwice)
    else if location != "" then
      if !w.caReadable then Err(CaUnreadable)
      else if !w.caParses then Err(CaUnparseable)
      else Ok(FileRoots(location))
    else if pem != "" then
      if !w.caParses then Err(CaUnparseable) else Ok(PemRoots(pem))
    else Ok(SystemRoots)
  }

  function BuildCertificate(f: Fields, w: World): Result<ClientCertificate, SecurityError> {
    var certLocation, keyLocation, certPem, keyPem :=
      Get(f, CertLocation), Get(f, KeyLocation), Get(f, CertPem), Get(f, KeyPem);
    var locationPair := certLocation != "" || keyLocation != "";
    var pemPair := certPem != "" || keyPem != "";
    if locationPair && pemPair then Err(CertificateTwice)
    else if locationPair then
      if certLocation == "" || keyLocation == "" then Err(CertificateHalf)
      else if !w.certificateLoads then Err(CertificateUnreadable)
      else Ok(FileCertificate(certLocation, keyLocation))
    else if pemPair then
      if certPem == "" || keyPem == "" then Err(CertificateHalf)
      else if !w.certificateLoads then Err(CertificateUnreadable)
      else Ok(PemCertificate(certPem, keyPem))
    else Ok(NoCertificate)
  }

  /** Turning verification off returns before the endpoint algorithm is looked at. */
  function BuildVerification(f: Fields): Result<Verification, SecurityError> {
    var verify, endpoint := Get(f, VerifyCertificates), Get(f, EndpointIdentification);
    if verify == "false" then Ok(Off)
    else if verify != "" && verify != "true" then Err(VerificationUnknown)
    else if endpoint == "" || endpoint == "https" then Ok(Full)
    else if endpoint == "none" then Ok(ChainOnly)
    else Err(EndpointUnknown)
  }

  /** tlsConfig. */
  function BuildTls(f: Fields, w: World): Result<Tls, SecurityError> {
    if Get(f, KeyPassword) != "" then Err(KeyPasswordUnsupported)
    else
      match BuildRoots(f, w)
      case Err(e) => Err(e)
      case Ok(roots) =>
        match BuildCertificate(f, w)
        case Err(e) => Err(e)
        case Ok(certificate) =>
          match BuildVerification(f)
          case Err(e) => Err(e)
          case Ok(verification) => Ok(Tls(roots, certificate, verification))
  }

  predicate HasCredentials(f: Fields) {
    Get(f, Username) != "" || Get(f, Password) != ""
  }

  function BuildUserPass(f: Fields, scheme: PasswordScheme): Result<Sasl, SecurityError> {
    if Get(f, Username) == "" then Err(UsernameMissing)
    else if Get(f, Password) == "" then Err(PasswordMissing)
    else Ok(UserPass(scheme, Get(f, Username), Get(f, Password)))
  }

  /** awsIAMMechanism. */
  function BuildAws(f: Fields, w: World): Result<Sasl, SecurityError> {
    if Get(f, Protocol) != "sasl_ssl" then Err(AwsNeedsTls)
    else if HasCredentials(f) then Err(CredentialsUnused)
    else if Get(f, AwsRoleSessionName) != "" && Get(f, AwsRoleArn) == "" then Err(SessionNameWithoutRole)
    else if !w.awsResolves then Err(AwsUnresolved)
    else Ok(AwsMskIam(Get(f, AwsRegion), Get(f, AwsProfile), Get(f, AwsRoleArn), Get(f, AwsRoleSessionName)))
  }

  /** gcpIAMMechanism. */
  function BuildGcp(f: Fields, w: World): Result<Sasl, SecurityError> {
    if Get(f, Protocol) != "sasl_ssl" then Err(GcpNeedsTls)
    else if HasCredentials(f) then Err(CredentialsUnused)
    else if HasAny(f, OIDC_FIELDS) then Err(OidcKeysUnused)
    else if !w.gcpResolves then Err(GcpUnresolved)
    else Ok(GcpIam(Get(f, GcpPrincipal), Get(f, GcpCredentialsFile)))
  }

  /** oauthOIDCMechanism. */
  function BuildOidc(f: Fields, w: World): Result<Sasl, SecurityError> {
    if HasCredentials(f) then Err(CredentialsUnused)
    else if Get(f, OAuthMethod) != "" && Get(f, OAuthMethod) != "oidc" then Err(MethodUnsupported)
    else if Get(f, OAuthTokenEndpoint) == "" then Err(TokenEndpointMissing)
    else if Get(f, OAuthClientId) == "" || Get(f, OAuthClientSecret) == "" then Err(ClientCredentialsMissing)
    else
      match ListCodecs.ParseExtensions(Get(f, OAuthExtensions))
      case None => Err(ExtensionsMalformed)
      case Some(extensions) =>
        if !w.tokenFetched then Err(TokenUnavailable)
        else Ok(Oidc(Get(f, OAuthTokenEndpoint), Get(f, OAuthClientId), Get(f, OAuthClientSecret),
                     Get(f, OAuthScope), extensions))
  }

  datatype MechanismName =
    NoMechanism | PasswordBased(scheme: PasswordScheme) | AwsMsk | OAuthBearer | Kerberos | UnknownMechanism

  function MechanismOf(text: string): MechanismName {
    var m := Upper(Trim(text));
    if m == "" then NoMechanism
    else if m == "PLAIN" then PasswordBased(Plain)
    else if m == "SCRAM-SHA-256" then PasswordBased(ScramSha256)
    else if m == "SCRAM-SHA-512" then PasswordBased(ScramSha512)
    else if m == "AWS_MSK_IAM" then AwsMsk
    else if m == "OAUTHBEARER" then OAuthBearer
    else if m == "GSSAPI" then Kerberos
    else UnknownMechanism
  }

  /** saslMechanism. */
  function BuildSasl(f: Fields, w: World): Result<Sasl, SecurityError> {
    var mechanism := MechanismOf(Get(f, Mechanism));
    if mechanism.NoMechanism? then Err(MechanismMissing)
    else if HasAny(f, AWS_FIELDS) && !mechanism.AwsMsk? then Err(AwsKeysOrphaned)
    else if HasAny(f, OAUTH_FIELDS) && !mechanism.OAuthBearer? then Err(OAuthKeysOrphaned)
    else if HasAny(f, GCP_FIELDS) && !(mechanism.OAuthBearer? && Get(f, OAuthMethod) == "gcp") then Err(GcpKeysOrphaned)
    else
      match mechanism
      case PasswordBased(scheme) => BuildUserPass(f, scheme)
      case AwsMsk => BuildAws(f, w)
      case OAuthBearer => if Get(f, OAuthMethod) == "gcp" then BuildGcp(f, w) else BuildOidc(f, w)
      case Kerberos => Err(KerberosUnsupported)
      case _ => Err(MechanismUnsupported)
  }

  /** What the protocol asks for: TLS, SASL. */
  datatype ProtocolName = Unset | Plaintext | Secured(tls: bool, sasl: bool) | Unknown

  function ProtocolOf(text: string): ProtocolName {
    if text == "" then Unset
    else if text == "plaintext" then Plaintext
    else if text == "ssl" then Secured(true, false)
    else if text == "sasl_plaintext" then Secured(false, true)
    else if text == "sasl_ssl" then Secured(true, true)
    else Unknown
  }

  /** build. */
  function Build(f: Fields, sawKey: bool, w: World): Result<Wiring, SecurityError> {
    if !sawKey then Ok(Wiring(None, None))
    else
      match ProtocolOf(Get(f, Protocol))
      case Unset => Err(ProtocolMissing)
      case Unknown => Err(ProtocolUnknown)
      case Plaintext =>
        if HasAny(f, SSL_FIELDS) || HasSaslKeys(f) then Err(PlaintextConflict) else Ok(Wiring(None, None))
      case Secured(tls, sasl) =>
        if !sasl && HasSaslKeys(f) then Err(SaslKeysNeedSasl)
        else if !tls && HasAny(f, SSL_FIELDS) then Err(SslKeysNeedSsl)
        else Assemble(f, tls, sasl, w)
  }

  function Assemble(f: Fields, tls: bool, sasl: bool, w: World): Result<Wiring, SecurityError> {
    match WithTls(f, tls, w)
    case Err(e) => Err(e)
    case Ok(t) =>
      if !sasl then Ok(Wiring(t, None))
      else
        match BuildSasl(f, w)
        case Err(e) => Err(e)
        case Ok(s) => Ok(Wiring(t, Some(s)))
  }

  function WithTls(f: Fields, tls: bool, w: World): Result<Option<Tls>, SecurityError> {
    if !tls then Ok(None)
    else
      match BuildTls(f, w)
      case Err(e) => Err(e)
      case Ok(t) => Ok(Some(t))
  }
}
