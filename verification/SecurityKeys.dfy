/** The security keys both sides of the boundary spell out. */
module SecurityKeys {
  import opened Common

  datatype SecurityKey =
    | Protocol | CaLocation | CaPem | CertLocation
    | KeyLocation | CertPem | KeyPem | KeyPassword
    | VerifyCertificates | EndpointIdentification | Mechanism | MechanismsAlias
    | Username | Password | AwsRegion | AwsProfile
    | AwsRoleArn | AwsRoleSessionName | OAuthTokenEndpoint | OAuthClientId
    | OAuthClientSecret | OAuthScope | OAuthExtensions | OAuthMethod
    | GcpPrincipal | GcpCredentialsFile

  function WireName(k: SecurityKey): string {
    match k
    case Protocol => "security.protocol"
    case CaLocation => "ssl.ca.location"
    case CaPem => "ssl.ca.pem"
    case CertLocation => "ssl.certificate.location"
    case KeyLocation => "ssl.key.location"
    case CertPem => "ssl.certificate.pem"
    case KeyPem => "ssl.key.pem"
    case KeyPassword => "ssl.key.password"
    case VerifyCertificates => "enable.ssl.certificate.verification"
    case EndpointIdentification => "ssl.endpoint.identification.algorithm"
    case Mechanism => "sasl.mechanism"
    case MechanismsAlias => "sasl.mechanisms"
    case Username => "sasl.username"
    case Password => "sasl.password"
    case AwsRegion => "aws.region"
    case AwsProfile => "aws.profile"
    case AwsRoleArn => "aws.role.arn"
    case AwsRoleSessionName => "aws.role.session.name"
    case OAuthTokenEndpoint => "sasl.oauthbearer.token.endpoint.url"
    case OAuthClientId => "sasl.oauthbearer.client.id"
    case OAuthClientSecret => "sasl.oauthbearer.client.secret"
    case OAuthScope => "sasl.oauthbearer.scope"
    case OAuthExtensions => "sasl.oauthbearer.extensions"
    case OAuthMethod => "sasl.oauthbearer.method"
    case GcpPrincipal => "gcp.principal"
    case GcpCredentialsFile => "gcp.credentials.file"
  }

  /** Length and ninth character of the name. */
  function Shape(k: SecurityKey): (nat, char) {
    match k
    case Protocol => (17, '.')
    case CaLocation => (15, 'o')
    case CaPem => (10, 'e')
    case CertLocation => (24, 'i')
    case KeyLocation => (16, 'l')
    case CertPem => (19, 'i')
    case KeyPem => (11, 'p')
    case KeyPassword => (16, 'p')
    case VerifyCertificates => (35, 's')
    case EndpointIdentification => (37, 'o')
    case Mechanism => (14, 'h')
    case MechanismsAlias => (15, 'h')
    case Username => (13, 'r')
    case Password => (13, 's')
    case AwsRegion => (10, 'o')
    case AwsProfile => (11, 'i')
    case AwsRoleArn => (12, '.')
    case AwsRoleSessionName => (21, '.')
    case OAuthTokenEndpoint => (35, 't')
    case OAuthClientId => (26, 't')
    case OAuthClientSecret => (30, 't')
    case OAuthScope => (22, 't')
    case OAuthExtensions => (27, 't')
    case OAuthMethod => (23, 't')
    case GcpPrincipal => (13, 'c')
    case GcpCredentialsFile => (20, 'e')
  }

  const ALL_KEYS: seq<SecurityKey> := [
    Protocol, CaLocation, CaPem, CertLocation, KeyLocation, CertPem,
    KeyPem, KeyPassword, VerifyCertificates, EndpointIdentification, Mechanism, MechanismsAlias,
    Username, Password, AwsRegion, AwsProfile, AwsRoleArn, AwsRoleSessionName,
    OAuthTokenEndpoint, OAuthClientId, OAuthClientSecret, OAuthScope, OAuthExtensions, OAuthMethod,
    GcpPrincipal, GcpCredentialsFile]

  function Find(keys: seq<SecurityKey>, name: string): Option<SecurityKey> {
    if keys == [] then None else if WireName(keys[0]) == name then Some(keys[0]) else Find(keys[1..], name)
  }

  /** The key a name spells, if it is a security key: a look-up in the table of names. */
  function KeyOf(name: string): Option<SecurityKey> {
    Find(ALL_KEYS, name)
  }

  /** The TLS family. */
  predicate IsSslKey(k: SecurityKey) {
    || k.CaLocation? || k.CaPem? || k.CertLocation? || k.KeyLocation?
    || k.CertPem? || k.KeyPem? || k.KeyPassword? || k.VerifyCertificates?
    || k.EndpointIdentification?
  }

  lemma NamesHaveShapes(k: SecurityKey)
    ensures |WireName(k)| == Shape(k).0 && Shape(k).0 > 8 && WireName(k)[8] == Shape(k).1
  {
  }

  lemma ShapesDiffer(a: SecurityKey, b: SecurityKey)
    requires Shape(a) == Shape(b)
    ensures a == b
  {
  }

  /** No two keys share a name. */
  lemma NamesDiffer(a: SecurityKey, b: SecurityKey)
    requires WireName(a) == WireName(b)
    ensures a == b
  {
    NamesHaveShapes(a);
    NamesHaveShapes(b);
    ShapesDiffer(a, b);
  }

  lemma SameNameSameKey(a: SecurityKey, b: SecurityKey)
    ensures WireName(a) == WireName(b) <==> a == b
  {
    if WireName(a) == WireName(b) { NamesDiffer(a, b); }
  }

  lemma AllKeysAreListed(k: SecurityKey)
    ensures k in ALL_KEYS
  {
  }

  lemma {:induction false} FindsListedKey(keys: seq<SecurityKey>, k: SecurityKey)
    requires k in keys
    ensures Find(keys, WireName(k)) == Some(k)
  {
    if WireName(keys[0]) == WireName(k) {
      NamesDiffer(keys[0], k);
    } else {
      FindsListedKey(keys[1..], k);
    }
  }

  /** The table knows every key by its name. */
  lemma KeyOfWireName(k: SecurityKey)
    ensures KeyOf(WireName(k)) == Some(k)
  {
    AllKeysAreListed(k);
    FindsListedKey(ALL_KEYS, k);
  }

  lemma {:induction false} FoundKeyHasTheName(keys: seq<SecurityKey>, name: string)
    ensures Find(keys, name).Some? ==> WireName(Find(keys, name).value) == name
  {
    if keys != [] { FoundKeyHasTheName(keys[1..], name); }
  }

  /** An option key: a security key, or any other name. */
  datatype Key = Secure(key: SecurityKey) | Other(name: string)

  function KeyFor(name: string): Key {
    match KeyOf(name)
    case Some(k) => Secure(k)
    case None => Other(name)
  }

  function NameOf(key: Key): string {
    match key
    case Secure(k) => WireName(k)
    case Other(name) => name
  }

  /** Names and keys are two spellings of the same thing. */
  lemma NamesAndKeysMatch(name: string, k: SecurityKey)
    ensures NameOf(KeyFor(name)) == name && KeyFor(NameOf(Secure(k))) == Secure(k)
  {
    FoundKeyHasTheName(ALL_KEYS, name);
    KeyOfWireName(k);
  }
}
