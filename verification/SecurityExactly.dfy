/** The bridge's security unit against a description of its outcome: which fields a wiring stands
    for. It builds a wiring exactly when that wiring explains every field, so that no key is
    missing, contradicted or silently ignored. */
module SecurityExactly {
  import opened Common
  import opened Text
  import opened SecurityKeys
  import opened FranzSecurity
  import ListCodecs

  // -- What a wiring says about each field -----------------------------------------------------------

  predicate ExplainsRoots(roots: Roots, f: Fields) {
    && Get(f, CaLocation) == (if roots.FileRoots? then roots.path else "")
    && Get(f, CaPem) == (if roots.PemRoots? then roots.pem else "")
  }

  predicate ExplainsCertificate(c: ClientCertificate, f: Fields) {
    && Get(f, CertLocation) == (if c.FileCertificate? then c.cert else "")
    && Get(f, KeyLocation) == (if c.FileCertificate? then c.key else "")
    && Get(f, CertPem) == (if c.PemCertificate? then c.cert else "")
    && Get(f, KeyPem) == (if c.PemCertificate? then c.key else "")
  }

  /** With verification off the endpoint algorithm may say anything. */
  predicate ExplainsVerification(v: Verification, f: Fields) {
    match v
    case Off => Get(f, VerifyCertificates) == "false"
    case ChainOnly =>
      && (Get(f, VerifyCertificates) == "" || Get(f, VerifyCertificates) == "true")
      && Get(f, EndpointIdentification) == "none"
    case Full =>
      && (Get(f, VerifyCertificates) == "" || Get(f, VerifyCertificates) == "true")
      && (Get(f, EndpointIdentification) == "" || Get(f, EndpointIdentification) == "https")
  }

  predicate ExplainsTls(t: Option<Tls>, f: Fields) {
    match t
    case Some(tls) =>
      && ExplainsRoots(tls.roots, f) && ExplainsCertificate(tls.certificate, f)
      && ExplainsVerification(tls.verification, f) && Get(f, KeyPassword) == ""
    case None =>
      && Get(f, CaLocation) == "" && Get(f, CaPem) == "" && Get(f, CertLocation) == "" && Get(f, KeyLocation) == ""
      && Get(f, CertPem) == "" && Get(f, KeyPem) == "" && Get(f, KeyPassword) == ""
      && Get(f, VerifyCertificates) == "" && Get(f, EndpointIdentification) == ""
  }

  predicate ExplainsPassword(s: Option<Sasl>, f: Fields) {
    var password := s.Some? && s.value.UserPass?;
    && Get(f, Username) == (if password then s.value.username else "")
    && Get(f, Password) == (if password then s.value.password else "")
  }

  predicate ExplainsAws(s: Option<Sasl>, f: Fields) {
    var aws := s.Some? && s.value.AwsMskIam?;
    && Get(f, AwsRegion) == (if aws then s.value.region else "")
    && Get(f, AwsProfile) == (if aws then s.value.profile else "")
    && Get(f, AwsRoleArn) == (if aws then s.value.roleArn else "")
    && Get(f, AwsRoleSessionName) == (if aws then s.value.sessionName else "")
  }

  predicate ExplainsOidc(s: Option<Sasl>, f: Fields) {
    var oidc := s.Some? && s.value.Oidc?;
    && Get(f, OAuthTokenEndpoint) == (if oidc then s.value.endpoint else "")
    && Get(f, OAuthClientId) == (if oidc then s.value.clientId else "")
    && Get(f, OAuthClientSecret) == (if oidc then s.value.clientSecret else "")
    && Get(f, OAuthScope) == (if oidc then s.value.scope else "")
    && (if oidc then ListCodecs.ParseExtensions(Get(f, OAuthExtensions)) == Some(s.value.extensions)
        else Get(f, OAuthExtensions) == "")
  }

  predicate ExplainsGcp(s: Option<Sasl>, f: Fields) {
    var gcp := s.Some? && s.value.GcpIam?;
    && Get(f, GcpPrincipal) == (if gcp then s.value.principal else "")
    && Get(f, GcpCredentialsFile) == (if gcp then s.value.credentialsFile else "")
    && (if gcp then Get(f, OAuthMethod) == "gcp"
        else if s.Some? && s.value.Oidc? then Get(f, OAuthMethod) == "" || Get(f, OAuthMethod) == "oidc"
        else Get(f, OAuthMethod) == "")
  }

  /** The mechanism's name, in any case and with blanks around it. */
  predicate ExplainsMechanism(s: Option<Sasl>, text: string) {
    match s
    case None => text == ""
    case Some(UserPass(scheme, _, _)) =>
      Upper(Trim(text)) ==
        (match scheme case Plain => "PLAIN" case ScramSha256 => "SCRAM-SHA-256" case ScramSha512 => "SCRAM-SHA-512")
    case Some(AwsMskIam(_, _, _, _)) => Upper(Trim(text)) == "AWS_MSK_IAM"
    case _ => Upper(Trim(text)) == "OAUTHBEARER"
  }

  predicate ExplainsSasl(s: Option<Sasl>, f: Fields) {
    && ExplainsMechanism(s, Get(f, Mechanism)) && ExplainsPassword(s, f) && ExplainsAws(s, f)
    && ExplainsOidc(s, f) && ExplainsGcp(s, f)
  }

  /** Every field is what the wiring stands for. */
  predicate Explains(x: Wiring, f: Fields) {
    && Get(f, Protocol) ==
         (if x.tls.Some? && x.sasl.Some? then "sasl_ssl"
          else if x.tls.Some? then "ssl"
          else if x.sasl.Some? then "sasl_plaintext"
          else "plaintext")
    && ExplainsTls(x.tls, f) && ExplainsSasl(x.sasl, f)
  }

  /** The parts that must not be empty are not, and the cloud mechanisms go over TLS. */
  predicate SoundTls(t: Tls) {
    && (t.roots.FileRoots? ==> t.roots.path != "") && (t.roots.PemRoots? ==> t.roots.pem != "")
    && (!t.certificate.NoCertificate? ==> t.certificate.cert != "" && t.certificate.key != "")
  }

  predicate SoundSasl(s: Sasl, tls: bool) {
    match s
    case UserPass(_, username, password) => username != "" && password != ""
    case AwsMskIam(_, _, arn, session) => tls && (session != "" ==> arn != "")
    case Oidc(endpoint, id, secret, _, _) => endpoint != "" && id != "" && secret != ""
    case GcpIam(_, _) => tls
  }

  predicate Sound(x: Wiring) {
    && (x.tls.Some? ==> SoundTls(x.tls.value)) && (x.sasl.Some? ==> SoundSasl(x.sasl.value, x.tls.Some?))
  }

  /** The outside world provides what it needs. */
  predicate ObtainsTls(t: Tls, w: World) {
    && (t.roots.FileRoots? ==> w.caReadable) && (!t.roots.SystemRoots? ==> w.caParses)
    && (!t.certificate.NoCertificate? ==> w.certificateLoads)
  }

  predicate ObtainsSasl(s: Sasl, w: World) {
    match s
    case UserPass(_, _, _) => true
    case AwsMskIam(_, _, _, _) => w.awsResolves
    case Oidc(_, _, _, _, _) => w.tokenFetched
    case GcpIam(_, _) => w.gcpResolves
  }

  predicate Obtains(x: Wiring, w: World) {
    && (x.tls.Some? ==> ObtainsTls(x.tls.value, w)) && (x.sasl.Some? ==> ObtainsSasl(x.sasl.value, w))
  }

  // -- TLS --------------------------------------------------------------------------------------------

  lemma RootsExactly(f: Fields, w: World, roots: Roots)
    ensures BuildRoots(f, w) == Ok(roots) <==>
      && ExplainsRoots(roots, f)
      && (roots.FileRoots? ==> roots.path != "" && w.caReadable) && (roots.PemRoots? ==> roots.pem != "")
      && (!roots.SystemRoots? ==> w.caParses)
  {
  }

  lemma CertificateExactly(f: Fields, w: World, c: ClientCertificate)
    ensures BuildCertificate(f, w) == Ok(c) <==>
      && ExplainsCertificate(c, f)
      && (!c.NoCertificate? ==> c.cert != "" && c.key != "" && w.certificateLoads)
  {
  }

  lemma VerificationExactly(f: Fields, v: Verification)
    ensures BuildVerification(f) == Ok(v) <==> ExplainsVerification(v, f)
  {
  }

  lemma TlsExactly(f: Fields, w: World, t: Tls)
    ensures BuildTls(f, w) == Ok(t) <==> ExplainsTls(Some(t), f) && SoundTls(t) && ObtainsTls(t, w)
  {
    RootsExactly(f, w, t.roots);
    CertificateExactly(f, w, t.certificate);
    VerificationExactly(f, t.verification);
  }

  // -- SASL -------------------------------------------------------------------------------------------

  lemma MechanismExactly(s: Sasl, text: string)
    ensures ExplainsMechanism(Some(s), text) <==>
      MechanismOf(text) ==
        match s
        case UserPass(scheme, _, _) => PasswordBased(scheme)
        case AwsMskIam(_, _, _, _) => AwsMsk
        case _ => OAuthBearer
  {
  }

  lemma AwsFamily(f: Fields)
    ensures HasAny(f, AWS_FIELDS) <==>
      Get(f, AwsRegion) != "" || Get(f, AwsProfile) != "" || Get(f, AwsRoleArn) != "" || Get(f, AwsRoleSessionName) != ""
  {
    assert AwsRegion in AWS_FIELDS && AwsProfile in AWS_FIELDS && AwsRoleArn in AWS_FIELDS
           && AwsRoleSessionName in AWS_FIELDS;
  }

  lemma OidcFamily(f: Fields)
    ensures HasAny(f, OIDC_FIELDS) <==>
      || Get(f, OAuthTokenEndpoint) != "" || Get(f, OAuthClientId) != "" || Get(f, OAuthClientSecret) != ""
      || Get(f, OAuthScope) != "" || Get(f, OAuthExtensions) != ""
  {
    assert OAuthTokenEndpoint in OIDC_FIELDS && OAuthClientId in OIDC_FIELDS && OAuthClientSecret in OIDC_FIELDS
           && OAuthScope in OIDC_FIELDS && OAuthExtensions in OIDC_FIELDS;
  }

  lemma OAuthFamily(f: Fields)
    ensures HasAny(f, OAUTH_FIELDS) <==> HasAny(f, OIDC_FIELDS) || Get(f, OAuthMethod) != ""
  {
    assert forall k :: k in OAUTH_FIELDS <==> k in OIDC_FIELDS || k == OAuthMethod;
  }

  lemma GcpFamily(f: Fields)
    ensures HasAny(f, GCP_FIELDS) <==> Get(f, GcpPrincipal) != "" || Get(f, GcpCredentialsFile) != ""
  {
    assert GcpPrincipal in GCP_FIELDS && GcpCredentialsFile in GCP_FIELDS;
  }

  lemma SslFamily(f: Fields)
    ensures HasAny(f, SSL_FIELDS) <==> !ExplainsTls(None, f)
  {
    assert CaLocation in SSL_FIELDS && CaPem in SSL_FIELDS && CertLocation in SSL_FIELDS && KeyLocation in SSL_FIELDS
           && CertPem in SSL_FIELDS && KeyPem in SSL_FIELDS && KeyPassword in SSL_FIELDS
           && VerifyCertificates in SSL_FIELDS && EndpointIdentification in SSL_FIELDS;
  }

  lemma Families(f: Fields)
    ensures HasAny(f, AWS_FIELDS) <==>
      Get(f, AwsRegion) != "" || Get(f, AwsProfile) != "" || Get(f, AwsRoleArn) != "" || Get(f, AwsRoleSessionName) != ""
    ensures HasAny(f, OIDC_FIELDS) <==>
      || Get(f, OAuthTokenEndpoint) != "" || Get(f, OAuthClientId) != "" || Get(f, OAuthClientSecret) != ""
      || Get(f, OAuthScope) != "" || Get(f, OAuthExtensions) != ""
    ensures HasAny(f, OAUTH_FIELDS) <==> HasAny(f, OIDC_FIELDS) || Get(f, OAuthMethod) != ""
    ensures HasAny(f, GCP_FIELDS) <==> Get(f, GcpPrincipal) != "" || Get(f, GcpCredentialsFile) != ""
  {
    AwsFamily(f);
    OidcFamily(f);
    OAuthFamily(f);
    GcpFamily(f);
  }

  lemma PasswordExactly(f: Fields, w: World, s: Sasl, tls: bool)
    requires s.UserPass? && MechanismOf(Get(f, Mechanism)) == PasswordBased(s.scheme)
    ensures BuildSasl(f, w) == Ok(s) <==>
      ExplainsPassword(Some(s), f) && ExplainsAws(Some(s), f) && ExplainsOidc(Some(s), f) && ExplainsGcp(Some(s), f)
      && SoundSasl(s, tls)
  {
    Families(f);
  }

  lemma AwsExactly(f: Fields, w: World, s: Sasl, tls: bool)
    requires s.AwsMskIam? && MechanismOf(Get(f, Mechanism)) == AwsMsk && (tls <==> Get(f, Protocol) == "sasl_ssl")
    ensures BuildSasl(f, w) == Ok(s) <==>
      ExplainsPassword(Some(s), f) && ExplainsAws(Some(s), f) && ExplainsOidc(Some(s), f) && ExplainsGcp(Some(s), f)
      && SoundSasl(s, tls) && w.awsResolves
  {
    Families(f);
  }

  lemma OidcExactly(f: Fields, w: World, s: Sasl, tls: bool)
    requires s.Oidc? && MechanismOf(Get(f, Mechanism)) == OAuthBearer
    ensures BuildSasl(f, w) == Ok(s) <==>
      ExplainsPassword(Some(s), f) && ExplainsAws(Some(s), f) && ExplainsOidc(Some(s), f) && ExplainsGcp(Some(s), f)
      && SoundSasl(s, tls) && w.tokenFetched
  {
    Families(f);
  }

  lemma GcpExactly(f: Fields, w: World, s: Sasl, tls: bool)
    requires s.GcpIam? && MechanismOf(Get(f, Mechanism)) == OAuthBearer && (tls <==> Get(f, Protocol) == "sasl_ssl")
    ensures BuildSasl(f, w) == Ok(s) <==>
      ExplainsPassword(Some(s), f) && ExplainsAws(Some(s), f) && ExplainsOidc(Some(s), f) && ExplainsGcp(Some(s), f)
      && SoundSasl(s, tls) && w.gcpResolves
  {
    Families(f);
  }

  /** The mechanism that is built is the one that is named. */
  lemma BuiltAsNamed(f: Fields, w: World, s: Sasl)
    requires BuildSasl(f, w) == Ok(s)
    ensures ExplainsMechanism(Some(s), Get(f, Mechanism))
  {
  }

  lemma SaslExactly(f: Fields, w: World, s: Sasl, tls: bool)
    requires tls <==> Get(f, Protocol) == "sasl_ssl"
    ensures BuildSasl(f, w) == Ok(s) <==> ExplainsSasl(Some(s), f) && SoundSasl(s, tls) && ObtainsSasl(s, w)
  {
    MechanismExactly(s, Get(f, Mechanism));
    if BuildSasl(f, w) == Ok(s) { BuiltAsNamed(f, w, s); }
    if ExplainsMechanism(Some(s), Get(f, Mechanism)) {
      match s
      case UserPass(_, _, _) => PasswordExactly(f, w, s, tls);
      case AwsMskIam(_, _, _, _) => AwsExactly(f, w, s, tls);
      case Oidc(_, _, _, _, _) => OidcExactly(f, w, s, tls);
      case GcpIam(_, _) => GcpExactly(f, w, s, tls);
    }
  }

  lemma SaslFamily(f: Fields)
    ensures HasSaslKeys(f) <==> !ExplainsSasl(None, f)
  {
    Families(f);
  }

  // -- The unit -----------------------------------------------------------------------------------------

  lemma AssembleExactly(f: Fields, tls: bool, sasl: bool, w: World, x: Wiring)
    requires sasl ==> (tls <==> Get(f, Protocol) == "sasl_ssl")
    ensures Assemble(f, tls, sasl, w) == Ok(x) <==>
      && x.tls.Some? == tls && x.sasl.Some? == sasl
      && (tls ==> ExplainsTls(x.tls, f)) && (sasl ==> ExplainsSasl(x.sasl, f)) && Sound(x) && Obtains(x, w)
  {
    if x.tls.Some? { TlsExactly(f, w, x.tls.value); }
    if sasl && x.sasl.Some? { SaslExactly(f, w, x.sasl.value, tls); }
  }

  /** The security unit builds a wiring exactly when the wiring explains every field, none of its
      parts is empty, and the outside world provides it. So every key that is set shows in the
      client, with one exception: the endpoint algorithm when verification is off. */
  lemma BuildExactly(f: Fields, w: World, x: Wiring)
    ensures Build(f, true, w) == Ok(x) <==> Explains(x, f) && Sound(x) && Obtains(x, w)
  {
    SslFamily(f);
    SaslFamily(f);
    match ProtocolOf(Get(f, Protocol))
    case Secured(tls, sasl) => AssembleExactly(f, tls, sasl, w, x);
    case _ =>
  }

  /** The errors about the protocol and the keys it allows. */
  predicate IsAboutProtocol(e: SecurityError) {
    e.ProtocolMissing? || e.ProtocolUnknown? || e.PlaintextConflict? || e.SaslKeysNeedSasl? || e.SslKeysNeedSsl?
  }

  lemma TlsIsNotAboutProtocol(f: Fields, w: World)
    ensures BuildTls(f, w).Err? ==> !IsAboutProtocol(BuildTls(f, w).error)
  {
  }

  lemma SaslIsNotAboutProtocol(f: Fields, w: World)
    ensures BuildSasl(f, w).Err? ==> !IsAboutProtocol(BuildSasl(f, w).error)
  {
  }

  lemma AssemblyIsNotAboutProtocol(f: Fields, tls: bool, sasl: bool, w: World)
    ensures Assemble(f, tls, sasl, w).Err? ==> !IsAboutProtocol(Assemble(f, tls, sasl, w).error)
  {
    TlsIsNotAboutProtocol(f, w);
    SaslIsNotAboutProtocol(f, w);
  }

  /** The refusals of a protocol that is none, and of keys that do not fit the protocol. */
  lemma ProtocolRefusesExactly(f: Fields, w: World)
    ensures Build(f, true, w) == Err(ProtocolMissing) <==> Get(f, Protocol) == ""
    ensures Build(f, true, w) == Err(ProtocolUnknown) <==>
      Get(f, Protocol) !in {"", "plaintext", "ssl", "sasl_plaintext", "sasl_ssl"}
    ensures Build(f, true, w) == Err(PlaintextConflict) <==>
      Get(f, Protocol) == "plaintext" && !(ExplainsTls(None, f) && ExplainsSasl(None, f))
    ensures Build(f, true, w) == Err(SaslKeysNeedSasl) <==> Get(f, Protocol) == "ssl" && !ExplainsSasl(None, f)
    ensures Build(f, true, w) == Err(SslKeysNeedSsl) <==>
      Get(f, Protocol) == "sasl_plaintext" && !ExplainsTls(None, f)
  {
    SslFamily(f);
    SaslFamily(f);
    AssemblyIsNotAboutProtocol(f, true, true, w);
    AssemblyIsNotAboutProtocol(f, true, false, w);
    AssemblyIsNotAboutProtocol(f, false, true, w);
  }

  /** The errors about keys of another mechanism. */
  predicate IsAboutFamilies(e: SecurityError) {
    e.MechanismMissing? || e.AwsKeysOrphaned? || e.OAuthKeysOrphaned? || e.GcpKeysOrphaned?
  }

  lemma MechanismsAreNotAboutFamilies(f: Fields, w: World, scheme: PasswordScheme)
    ensures BuildUserPass(f, scheme).Err? ==> !IsAboutFamilies(BuildUserPass(f, scheme).error)
    ensures BuildAws(f, w).Err? ==> !IsAboutFamilies(BuildAws(f, w).error)
    ensures BuildGcp(f, w).Err? ==> !IsAboutFamilies(BuildGcp(f, w).error)
    ensures BuildOidc(f, w).Err? ==> !IsAboutFamilies(BuildOidc(f, w).error)
  {
  }

  lemma NamesOfMechanisms(text: string)
    ensures MechanismOf(text).NoMechanism? <==> Upper(Trim(text)) == ""
    ensures MechanismOf(text).AwsMsk? <==> Upper(Trim(text)) == "AWS_MSK_IAM"
    ensures MechanismOf(text).OAuthBearer? <==> Upper(Trim(text)) == "OAUTHBEARER"
  {
  }

  /** The refusals of a missing mechanism, and of keys that belong to another one than is named. */
  lemma MechanismRefusesExactly(f: Fields, w: World, name: string)
    requires name == Upper(Trim(Get(f, Mechanism)))
    ensures BuildSasl(f, w) == Err(MechanismMissing) <==> name == ""
    ensures BuildSasl(f, w) == Err(AwsKeysOrphaned) <==>
      name != "" && name != "AWS_MSK_IAM" && !ExplainsAws(None, f)
    ensures BuildSasl(f, w) == Err(OAuthKeysOrphaned) <==>
      && name != "" && name != "OAUTHBEARER" && (name == "AWS_MSK_IAM" || ExplainsAws(None, f))
      && !(ExplainsOidc(None, f) && Get(f, OAuthMethod) == "")
    ensures BuildSasl(f, w) == Err(GcpKeysOrphaned) <==>
      && name != "" && (name == "AWS_MSK_IAM" || ExplainsAws(None, f))
      && (name == "OAUTHBEARER" || (ExplainsOidc(None, f) && Get(f, OAuthMethod) == ""))
      && !(name == "OAUTHBEARER" && Get(f, OAuthMethod) == "gcp")
      && (Get(f, GcpPrincipal) != "" || Get(f, GcpCredentialsFile) != "")
  {
    Families(f);
    NamesOfMechanisms(Get(f, Mechanism));
    var m := MechanismOf(Get(f, Mechanism));
    MechanismsAreNotAboutFamilies(f, w, if m.PasswordBased? then m.scheme else Plain);
  }

  lemma OtherMechanisms(text: string, name: string)
    requires name == Upper(Trim(text))
    ensures MechanismOf(text).Kerberos? <==> name == "GSSAPI"
    ensures MechanismOf(text).UnknownMechanism? <==>
      name !in {"", "PLAIN", "SCRAM-SHA-256", "SCRAM-SHA-512", "AWS_MSK_IAM", "OAUTHBEARER", "GSSAPI"}
  {
  }

  lemma MechanismsAreNotUnsupported(f: Fields, w: World, scheme: PasswordScheme)
    ensures BuildUserPass(f, scheme) !in {Err(KerberosUnsupported), Err(MechanismUnsupported)}
    ensures BuildAws(f, w) !in {Err(KerberosUnsupported), Err(MechanismUnsupported)}
    ensures BuildGcp(f, w) !in {Err(KerberosUnsupported), Err(MechanismUnsupported)}
    ensures BuildOidc(f, w) !in {Err(KerberosUnsupported), Err(MechanismUnsupported)}
  {
  }

  /** The refusals of a mechanism that is named and not there: Kerberos, and any other name. */
  lemma UnsupportedExactly(f: Fields, w: World, name: string)
    requires name == Upper(Trim(Get(f, Mechanism)))
    ensures var alone := !HasAny(f, AWS_FIELDS) && !HasAny(f, OAUTH_FIELDS) && !HasAny(f, GCP_FIELDS);
      && (BuildSasl(f, w) == Err(KerberosUnsupported) <==> alone && name == "GSSAPI")
      && (BuildSasl(f, w) == Err(MechanismUnsupported) <==>
            alone && name !in {"", "PLAIN", "SCRAM-SHA-256", "SCRAM-SHA-512", "AWS_MSK_IAM", "OAUTHBEARER", "GSSAPI"})
  {
    OtherMechanisms(Get(f, Mechanism), name);
    var m := MechanismOf(Get(f, Mechanism));
    MechanismsAreNotUnsupported(f, w, if m.PasswordBased? then m.scheme else Plain);
  }

  // -- The one key that can be ignored --------------------------------------------------------------------

  /** An endpoint algorithm that is none is refused, unless verification is off: then it is never
      looked at. */
  lemma UnknownEndpointIsIgnoredExactly(f: Fields)
    requires Get(f, EndpointIdentification) !in {"", "https", "none"}
    ensures BuildVerification(f).Ok? <==> Get(f, VerifyCertificates) == "false"
  {
  }

  /** The same but for the endpoint algorithm. */
  predicate SameButEndpoint(f: Fields, g: Fields) {
    forall k: SecurityKey :: !k.EndpointIdentification? ==> Get(f, k) == Get(g, k)
  }

  lemma SaslReadsNoEndpoint(s: Option<Sasl>, f: Fields, g: Fields)
    requires SameButEndpoint(f, g)
    ensures ExplainsSasl(s, f) ==> ExplainsSasl(s, g)
  {
  }

  lemma TlsReadsNoEndpoint(t: Tls, f: Fields, g: Fields)
    requires SameButEndpoint(f, g) && Get(f, VerifyCertificates) == "false"
    ensures ExplainsTls(Some(t), f) ==> ExplainsTls(Some(t), g)
  {
  }

  /** So a configuration is accepted though one of its keys means nothing: this one, whatever else
      it says. */
  lemma SomeKeyIsIgnored(f: Fields, w: World, x: Wiring, g: Fields)
    requires Get(f, VerifyCertificates) == "false" && Build(f, true, w) == Ok(x) && x.tls.Some?
    requires SameButEndpoint(f, g) && Get(g, EndpointIdentification) == "nonsense"
    ensures Build(g, true, w) == Ok(x)
  {
    BuildExactly(f, w, x);
    BuildExactly(g, w, x);
    SaslReadsNoEndpoint(x.sasl, f, g);
    TlsReadsNoEndpoint(x.tls.value, f, g);
    assert Get(f, Protocol) == Get(g, Protocol);
  }
}
