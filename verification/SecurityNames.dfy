/** The security fields by the names of their keys: what the bridge collects from a configuration. */
module SecurityNames {
  import opened Common
  import opened Text
  import opened SecurityKeys
  import opened OptionTable
  import opened OptionAccounting
  import F = FranzSecurity

  /** The value under a name; the empty string without one. */
  function TextOf(config: map<string, string>, name: string): string {
    if name in config then config[name] else ""
  }

  /** The raw value of a key: the mechanism is read under either of its two names, and the second
      wins. */
  function RawText(config: map<string, string>, k: SecurityKey, name: string, alias: string): string {
    if k.Mechanism? && alias in config then config[alias] else TextOf(config, name)
  }

  /** Every field holds the value under its key's name, as stored. */
  ghost predicate Collects(f: F.Fields, config: map<string, string>) {
    forall k: SecurityKey :: !k.MechanismsAlias? ==>
      F.Get(f, k) == F.Stored(k, RawText(config, k, WireName(k), WireName(MechanismsAlias)))
  }

  lemma EmptyIsStoredEmpty(k: SecurityKey)
    ensures F.Stored(k, "") == ""
  {
  }

  /** What is collected from a configuration. */
  lemma FieldsAreCollected(config: map<string, string>)
    ensures Collects(FieldsIn(config), config)
  {
    forall k: SecurityKey | !k.MechanismsAlias?
      ensures F.Get(FieldsIn(config), k) ==
        F.Stored(k, RawText(config, k, WireName(k), WireName(MechanismsAlias)))
    {
      AllKeysAreListed(k);
      EmptyIsStoredEmpty(k);
    }
  }

  predicate IsWordKey(k: SecurityKey) {
    k.Protocol? || k.VerifyCertificates? || k.EndpointIdentification? || k.OAuthMethod?
  }

  predicate IsTrimmedKey(k: SecurityKey) {
    || k.AwsRegion? || k.AwsProfile? || k.AwsRoleArn? || k.AwsRoleSessionName? || k.OAuthTokenEndpoint?
    || k.OAuthScope? || k.GcpPrincipal? || k.GcpCredentialsFile?
  }

  predicate IsVerbatim(k: SecurityKey) {
    !IsWordKey(k) && !IsTrimmedKey(k) && !k.Mechanism? && !k.MechanismsAlias?
  }

  lemma Verbatim(f: F.Fields, config: map<string, string>, k: SecurityKey, name: string)
    requires Collects(f, config) && name == WireName(k) && IsVerbatim(k)
    ensures F.Get(f, k) == TextOf(config, name)
  {
    assert F.Get(f, k) == F.Stored(k, RawText(config, k, WireName(k), WireName(MechanismsAlias)));
  }

  lemma StoredTrimmed(k: SecurityKey, value: string)
    requires IsTrimmedKey(k)
    ensures F.Stored(k, value) == Trim(value)
  {
  }

  lemma Trimmed(f: F.Fields, config: map<string, string>, k: SecurityKey, name: string)
    requires Collects(f, config) && name == WireName(k) && IsTrimmedKey(k)
    ensures F.Get(f, k) == Trim(TextOf(config, name))
  {
    StoredTrimmed(k, TextOf(config, name));
    assert F.Get(f, k) == F.Stored(k, RawText(config, k, WireName(k), WireName(MechanismsAlias)));
  }

  lemma Lowered(f: F.Fields, config: map<string, string>, k: SecurityKey, name: string)
    requires Collects(f, config) && name == WireName(k) && IsWordKey(k)
    ensures F.Get(f, k) == Lower(Trim(TextOf(config, name)))
  {
    assert F.Get(f, k) == F.Stored(k, RawText(config, k, WireName(k), WireName(MechanismsAlias)));
  }

  /** The words are read in any case and with blanks around them. */
  lemma WordsByName(f: F.Fields, config: map<string, string>)
    requires Collects(f, config)
    ensures
      && F.Get(f, Protocol) == Lower(Trim(TextOf(config, "security.protocol")))
      && F.Get(f, VerifyCertificates) == Lower(Trim(TextOf(config, "enable.ssl.certificate.verification")))
      && F.Get(f, EndpointIdentification) == Lower(Trim(TextOf(config, "ssl.endpoint.identification.algorithm")))
      && F.Get(f, OAuthMethod) == Lower(Trim(TextOf(config, "sasl.oauthbearer.method")))
  {
    Lowered(f, config, Protocol, "security.protocol");
    Lowered(f, config, VerifyCertificates, "enable.ssl.certificate.verification");
    Lowered(f, config, EndpointIdentification, "ssl.endpoint.identification.algorithm");
    Lowered(f, config, OAuthMethod, "sasl.oauthbearer.method");
  }

  /** Certificates and keys are read as they are. */
  lemma CertificatesByName(f: F.Fields, config: map<string, string>)
    requires Collects(f, config)
    ensures
      && F.Get(f, CaLocation) == TextOf(config, "ssl.ca.location")
      && F.Get(f, CaPem) == TextOf(config, "ssl.ca.pem")
      && F.Get(f, CertLocation) == TextOf(config, "ssl.certificate.location")
      && F.Get(f, KeyLocation) == TextOf(config, "ssl.key.location")
  {
    Verbatim(f, config, CaLocation, "ssl.ca.location");
    Verbatim(f, config, CaPem, "ssl.ca.pem");
    Verbatim(f, config, CertLocation, "ssl.certificate.location");
    Verbatim(f, config, KeyLocation, "ssl.key.location");
  }

  /** So are the others of TLS. */
  lemma KeysByName(f: F.Fields, config: map<string, string>)
    requires Collects(f, config)
    ensures
      && F.Get(f, CertPem) == TextOf(config, "ssl.certificate.pem")
      && F.Get(f, KeyPem) == TextOf(config, "ssl.key.pem")
      && F.Get(f, KeyPassword) == TextOf(config, "ssl.key.password")
  {
    Verbatim(f, config, CertPem, "ssl.certificate.pem");
    Verbatim(f, config, KeyPem, "ssl.key.pem");
    Verbatim(f, config, KeyPassword, "ssl.key.password");
  }

  /** So are credentials. */
  lemma CredentialsByName(f: F.Fields, config: map<string, string>)
    requires Collects(f, config)
    ensures
      && F.Get(f, Username) == TextOf(config, "sasl.username")
      && F.Get(f, Password) == TextOf(config, "sasl.password")
      && F.Get(f, OAuthClientId) == TextOf(config, "sasl.oauthbearer.client.id")
      && F.Get(f, OAuthClientSecret) == TextOf(config, "sasl.oauthbearer.client.secret")
  {
    Verbatim(f, config, Username, "sasl.username");
    Verbatim(f, config, Password, "sasl.password");
    Verbatim(f, config, OAuthClientId, "sasl.oauthbearer.client.id");
    Verbatim(f, config, OAuthClientSecret, "sasl.oauthbearer.client.secret");
  }

  /** AWS keys lose the blanks around them. */
  lemma AwsByName(f: F.Fields, config: map<string, string>)
    requires Collects(f, config)
    ensures
      && F.Get(f, AwsRegion) == Trim(TextOf(config, "aws.region"))
      && F.Get(f, AwsProfile) == Trim(TextOf(config, "aws.profile"))
      && F.Get(f, AwsRoleArn) == Trim(TextOf(config, "aws.role.arn"))
      && F.Get(f, AwsRoleSessionName) == Trim(TextOf(config, "aws.role.session.name"))
  {
    Trimmed(f, config, AwsRegion, "aws.region");
    Trimmed(f, config, AwsProfile, "aws.profile");
    Trimmed(f, config, AwsRoleArn, "aws.role.arn");
    Trimmed(f, config, AwsRoleSessionName, "aws.role.session.name");
  }

  /** So do the others, but for the extensions. */
  lemma TokenKeysByName(f: F.Fields, config: map<string, string>)
    requires Collects(f, config)
    ensures
      && F.Get(f, OAuthTokenEndpoint) == Trim(TextOf(config, "sasl.oauthbearer.token.endpoint.url"))
      && F.Get(f, OAuthScope) == Trim(TextOf(config, "sasl.oauthbearer.scope"))
      && F.Get(f, GcpPrincipal) == Trim(TextOf(config, "gcp.principal"))
      && F.Get(f, GcpCredentialsFile) == Trim(TextOf(config, "gcp.credentials.file"))
      && F.Get(f, OAuthExtensions) == TextOf(config, "sasl.oauthbearer.extensions")
  {
    Trimmed(f, config, OAuthTokenEndpoint, "sasl.oauthbearer.token.endpoint.url");
    Trimmed(f, config, OAuthScope, "sasl.oauthbearer.scope");
    Trimmed(f, config, GcpPrincipal, "gcp.principal");
    Trimmed(f, config, GcpCredentialsFile, "gcp.credentials.file");
    Verbatim(f, config, OAuthExtensions, "sasl.oauthbearer.extensions");
  }

  /** The mechanism is read under either of its two names; the second wins. */
  lemma MechanismByName(f: F.Fields, config: map<string, string>)
    requires Collects(f, config)
    ensures F.Get(f, Mechanism) ==
      if "sasl.mechanisms" in config then config["sasl.mechanisms"] else TextOf(config, "sasl.mechanism")
  {
    assert F.Get(f, Mechanism) ==
      F.Stored(Mechanism, RawText(config, Mechanism, WireName(Mechanism), WireName(MechanismsAlias)));
  }

  /** The names that are read as security keys are those of the list. */
  lemma SecurityIsSeen(config: map<string, string>)
    ensures HasSecurityKey(config) <==> exists k: SecurityKey :: WireName(k) in config
  {
    if name :| name in config && KeyFor(name).Secure? {
      FoundKeyHasTheName(ALL_KEYS, name);
      assert WireName(KeyFor(name).key) in config;
    }
    if k: SecurityKey :| WireName(k) in config {
      KeyOfWireName(k);
      assert KeyFor(WireName(k)).Secure?;
    }
  }
}
