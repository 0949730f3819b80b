/** What a chain of typed setters makes the bridge do. */
module TypedSecurity {
  import opened Common
  import opened Text
  import opened Pairs
  import opened SecurityKeys
  import opened Options
  import opened SecurityComposition
  import opened SetterLaws
  import opened AskedFor
  import F = FranzSecurity
  import ListCodecs

  // -- What the setters ask for -------------------------------------------------------------------

  /** The TLS part of a map of ssl keys. */
  function TlsOf(m: F.Fields, w: F.World): Result<F.Tls, F.SecurityError> {
    match F.BuildRoots(m, w)
    case Err(e) => Err(e)
    case Ok(roots) =>
      match F.BuildCertificate(m, w)
      case Err(e) => Err(e)
      case Ok(certificate) =>
        Ok(F.Tls(roots, certificate,
                 if VerifyCertificates in m then F.Off
                 else if EndpointIdentification in m then F.ChainOnly
                 else F.Full))
  }

  /** Read off the last value of each ssl setter. */
  function TlsMeant(o: Settings, w: F.World): Result<F.Tls, F.SecurityError> {
    TlsOf(LastWins(o.ssl), w)
  }

  function SaslMeant(sasl: HostSasl, w: F.World): Result<F.Sasl, F.SecurityError> {
    match sasl
    case UserPass(scheme, u, p) =>
      if u == "" then Err(F.UsernameMissing)
      else if p == "" then Err(F.PasswordMissing)
      else Ok(F.UserPass(scheme, u, p))
    case AwsMskIam(region, profile, arn, name) =>
      if Trim(OrEmpty(name)) != "" && Trim(OrEmpty(arn)) == "" then Err(F.SessionNameWithoutRole)
      else if !w.awsResolves then Err(F.AwsUnresolved)
      else Ok(F.Sasl.AwsMskIam(Trim(OrEmpty(region)), Trim(OrEmpty(profile)), Trim(OrEmpty(arn)), Trim(OrEmpty(name))))
    case OauthbearerOidc(url, id, secret, scope, extensions) =>
      if Trim(url) == "" then Err(F.TokenEndpointMissing)
      else if id == "" || secret == "" then Err(F.ClientCredentialsMissing)
      else
        (match ListCodecs.ParseExtensions(ListCodecs.JoinExtensions(extensions))
         case None => Err(F.ExtensionsMalformed)
         case Some(read) =>
           if !w.tokenFetched then Err(F.TokenUnavailable)
           else Ok(F.Oidc(Trim(url), id, secret, Trim(OrEmpty(scope)), read)))
    case GcpIam(principal, file) =>
      if !w.gcpResolves then Err(F.GcpUnresolved)
      else Ok(F.Sasl.GcpIam(Trim(OrEmpty(principal)), Trim(OrEmpty(file))))
  }

  /** The outcome a chain of typed setters means: the client it describes, or the first complaint
      about a value. */
  function Meant(o: Settings, w: F.World): Result<F.Wiring, F.SecurityError> {
    var tls: Result<Option<F.Tls>, F.SecurityError> :=
      if !o.tls then Ok(None)
      else (match TlsMeant(o, w) case Err(e) => Err(e) case Ok(t) => Ok(Some(t)));
    match tls
    case Err(e) => Err(e)
    case Ok(t) =>
      if o.sasl.None? then Ok(F.Wiring(t, None))
      else
        match SaslMeant(o.sasl.value, w)
        case Err(e) => Err(e)
        case Ok(s) => Ok(F.Wiring(t, Some(s)))
  }

  // -- Constants that pass through normalisation ----------------------------------------------------

  predicate LowerWord(s: string) {
    s != [] && forall i :: 0 <= i < |s| ==> 'a' <= s[i] <= 'z' || s[i] == '_'
  }

  predicate UpperWord(s: string) {
    s != [] && forall i :: 0 <= i < |s| ==> 'A' <= s[i] <= 'Z' || '0' <= s[i] <= '9' || s[i] == '_' || s[i] == '-'
  }

  lemma {:induction false} LowerOfWord(s: string)
    requires forall i :: 0 <= i < |s| ==> 'a' <= s[i] <= 'z' || s[i] == '_'
    ensures Lower(s) == s
  {
    if s != [] {
      LowerOfWord(s[1..]);
      assert s == [s[0]] + s[1..];
    }
  }

  lemma {:induction false} UpperOfWord(s: string)
    requires forall i :: 0 <= i < |s| ==> 'A' <= s[i] <= 'Z' || '0' <= s[i] <= '9' || s[i] == '_' || s[i] == '-'
    ensures Upper(s) == s
  {
    if s != [] {
      UpperOfWord(s[1..]);
      assert s == [s[0]] + s[1..];
    }
  }

  lemma LowerWordPasses(s: string)
    requires LowerWord(s)
    ensures Lower(Trim(s)) == s
  {
    TrimKeepsTrimmed(s);
    LowerOfWord(s);
  }

  lemma UpperWordPasses(s: string)
    requires UpperWord(s)
    ensures Upper(Trim(s)) == s
  {
    TrimKeepsTrimmed(s);
    UpperOfWord(s);
  }

  lemma SslNamesPass()
    ensures Lower(Trim("ssl")) == "ssl" && Lower(Trim("sasl_ssl")) == "sasl_ssl"
  {
    LowerWordPasses("ssl");
    LowerWordPasses("sasl_ssl");
  }

  lemma PlaintextNamePasses()
    ensures Lower(Trim("sasl_plaintext")) == "sasl_plaintext"
  {
    LowerWordPasses("sasl_plaintext");
  }

  lemma ProtocolIsUnderstood(o: Settings)
    requires o.tls || o.sasl.Some?
    ensures F.Stored(Protocol, ProtocolName(o)) == ProtocolName(o)
    ensures F.ProtocolOf(ProtocolName(o)) == F.Secured(o.tls, o.sasl.Some?)
  {
    SslNamesPass();
    PlaintextNamePasses();
  }

  lemma PasswordSchemeIsUnderstood(scheme: F.PasswordScheme)
    ensures F.MechanismOf(MechanismText(scheme)) == F.PasswordBased(scheme)
  {
    UpperWordPasses(MechanismText(scheme));
  }

  lemma AwsMechanismIsUnderstood()
    ensures F.MechanismOf("AWS_MSK_IAM") == F.AwsMsk
  {
    UpperWordPasses("AWS_MSK_IAM");
  }

  lemma OAuthMechanismIsUnderstood()
    ensures F.MechanismOf("OAUTHBEARER") == F.OAuthBearer
  {
    UpperWordPasses("OAUTHBEARER");
  }

  lemma OtherWordsPass()
    ensures Lower(Trim("false")) == "false" && Lower(Trim("none")) == "none"
  {
    LowerWordPasses("false");
    LowerWordPasses("none");
  }

  lemma GcpPasses()
    ensures Lower(Trim("gcp")) == "gcp"
  {
    LowerWordPasses("gcp");
  }

  // -- What the bridge holds ---------------------------------------------------------------------

  /** Each field is what the setters emitted, as stored. */
  ghost predicate Represents(f: F.Fields, o: Settings) {
    forall k: SecurityKey :: !k.MechanismsAlias? ==> F.Get(f, k) == F.Stored(k, Emitted(o, k))
  }

  lemma StoredEmpty(k: SecurityKey)
    ensures F.Stored(k, "") == ""
  {
  }

  lemma StringPairsAreNotSecure(o: Settings, k: SecurityKey)
    requires NoStringSecurity(o)
    ensures Secure(k) in LastWins(Entries(o)) <==> k in LastWins(SecurityPairs(o))
    ensures Secure(k) in LastWins(Entries(o)) ==> LastWins(Entries(o))[Secure(k)] == LastWins(SecurityPairs(o))[k]
  {
    LastWinsOfConcat(o.entries, Tagged(SecurityPairs(o)));
    TaggedKeepsValues(SecurityPairs(o), Secure(k));
    KeysOfLastWins(o.entries, Secure(k));
  }

  /** Whatever order the keys of the map are collected in, the fields are what was emitted. */
  lemma CollectingGivesWhatWasEmitted(o: Settings, pairs: seq<(Key, string)>)
    requires Consistent(o) && NoStringSecurity(o) && LastWins(pairs) == LastWins(Entries(o))
    ensures Represents(CollectAll(pairs), o)
    ensures SawKey(pairs) <==> o.tls || o.sasl.Some?
  {
    AliasIsNeverEmitted(o);
    StringPairsAreNotSecure(o, MechanismsAlias);
    forall k: SecurityKey | !k.MechanismsAlias?
      ensures F.Get(CollectAll(pairs), k) == F.Stored(k, Emitted(o, k))
    {
      StringPairsAreNotSecure(o, k);
      CollectedIsTheMap(pairs, k);
      EmittedIsInThePairs(o, k);
      StoredEmpty(k);
    }
    if o.tls || o.sasl.Some? {
      KeysOfLastWins(SecurityPairs(o), Protocol);
      assert SecurityPairs(o)[0].0 == Protocol;
      StringPairsAreNotSecure(o, Protocol);
      SawKeyIsTheMap(pairs, Protocol);
    } else {
      forall k: SecurityKey ensures Secure(k) !in LastWins(pairs) { StringPairsAreNotSecure(o, k); }
      NoSecureKeyNothingCollected(pairs);
    }
  }

  // -- The two outcomes agree ----------------------------------------------------------------------

  lemma SslValues(f: F.Fields, o: Settings, k: SecurityKey)
    requires Represents(f, o) && o.tls && IsSslKey(k) && !k.VerifyCertificates? && !k.EndpointIdentification?
    ensures F.Get(f, k) == F.Get(LastWins(o.ssl), k)
  {
    assert F.Get(f, k) == F.Stored(k, Emitted(o, k));
  }

  lemma SslConstants(o: Settings, k: SecurityKey)
    requires Consistent(o) && k in LastWins(o.ssl)
    ensures !k.KeyPassword?
    ensures k.VerifyCertificates? ==> LastWins(o.ssl)[k] == "false"
    ensures k.EndpointIdentification? ==> LastWins(o.ssl)[k] == "none"
  {
    LastWinsTakesFrom(o.ssl, k);
    var i :| 0 <= i < |o.ssl| && o.ssl[i] == (k, LastWins(o.ssl)[k]);
    assert TypedSslPair(o.ssl[i]);
  }

  lemma VerificationAgrees(f: F.Fields, o: Settings)
    requires Represents(f, o) && Consistent(o) && o.tls
    ensures F.BuildVerification(f) ==
      Ok(if VerifyCertificates in LastWins(o.ssl) then F.Off
         else if EndpointIdentification in LastWins(o.ssl) then F.ChainOnly
         else F.Full)
  {
    OtherWordsPass();
    var m := LastWins(o.ssl);
    assert F.Get(f, VerifyCertificates) == F.Stored(VerifyCertificates, ValueIn(m, VerifyCertificates));
    assert F.Get(f, EndpointIdentification) == F.Stored(EndpointIdentification, ValueIn(m, EndpointIdentification));
    StoredEmpty(VerifyCertificates);
    StoredEmpty(EndpointIdentification);
    if VerifyCertificates in m { SslConstants(o, VerifyCertificates); }
    if EndpointIdentification in m { SslConstants(o, EndpointIdentification); }
  }

  lemma TlsAgrees(f: F.Fields, o: Settings, w: F.World)
    requires Represents(f, o) && Consistent(o) && o.tls
    ensures F.BuildTls(f, w) == TlsMeant(o, w)
  {
    SslValues(f, o, KeyPassword);
    if KeyPassword in LastWins(o.ssl) { SslConstants(o, KeyPassword); }
    SslValues(f, o, CaLocation);
    SslValues(f, o, CaPem);
    SslValues(f, o, CertLocation);
    SslValues(f, o, KeyLocation);
    SslValues(f, o, CertPem);
    SslValues(f, o, KeyPem);
    VerificationAgrees(f, o);
  }

  lemma SaslField(f: F.Fields, o: Settings, k: SecurityKey)
    requires Represents(f, o) && !k.Protocol? && !IsSslKey(k) && !k.MechanismsAlias?
    ensures F.Get(f, k) == F.Stored(k, if o.sasl.Some? then SaslValue(o.sasl.value, k) else "")
  {
  }

  /** Families of keys that the setters never touched are empty. */
  lemma Untouched(f: F.Fields, o: Settings, keys: seq<SecurityKey>)
    requires Represents(f, o)
    requires forall k :: k in keys ==>
      && !k.Protocol? && !IsSslKey(k) && !k.MechanismsAlias?
      && (o.sasl.None? || SaslValue(o.sasl.value, k) == "")
    ensures !F.HasAny(f, keys)
  {
    forall k | k in keys ensures F.Get(f, k) == "" {
      SaslField(f, o, k);
      StoredEmpty(k);
    }
  }

  lemma NoCredentials(f: F.Fields, o: Settings)
    requires Represents(f, o) && (o.sasl.None? || !o.sasl.value.UserPass?)
    ensures !F.HasCredentials(f)
  {
    SaslField(f, o, Username);
    SaslField(f, o, Password);
  }

  function MechanismMeant(sasl: HostSasl): F.MechanismName {
    match sasl
    case UserPass(scheme, _, _) => F.PasswordBased(scheme)
    case AwsMskIam(_, _, _, _) => F.AwsMsk
    case _ => F.OAuthBearer
  }

  lemma MechanismAgrees(f: F.Fields, o: Settings)
    requires Represents(f, o) && o.sasl.Some?
    ensures F.MechanismOf(F.Get(f, Mechanism)) == MechanismMeant(o.sasl.value)
  {
    SaslField(f, o, Mechanism);
    match o.sasl.value
    case UserPass(scheme, _, _) => PasswordSchemeIsUnderstood(scheme);
    case AwsMskIam(_, _, _, _) => AwsMechanismIsUnderstood();
    case _ => OAuthMechanismIsUnderstood();
  }

  lemma AwsValues(sasl: HostSasl, k: SecurityKey)
    requires k in F.AWS_FIELDS && !sasl.AwsMskIam?
    ensures !k.Protocol? && !IsSslKey(k) && !k.MechanismsAlias? && SaslValue(sasl, k) == ""
  {
  }

  lemma OAuthValues(sasl: HostSasl, k: SecurityKey)
    requires k in F.OAUTH_FIELDS && !sasl.OauthbearerOidc? && !sasl.GcpIam?
    ensures !k.Protocol? && !IsSslKey(k) && !k.MechanismsAlias? && SaslValue(sasl, k) == ""
  {
  }

  lemma GcpValues(sasl: HostSasl, k: SecurityKey)
    requires k in F.GCP_FIELDS && !sasl.GcpIam?
    ensures !k.Protocol? && !IsSslKey(k) && !k.MechanismsAlias? && SaslValue(sasl, k) == ""
  {
  }

  lemma OidcValues(sasl: HostSasl, k: SecurityKey)
    requires k in F.OIDC_FIELDS && !sasl.OauthbearerOidc?
    ensures !k.Protocol? && !IsSslKey(k) && !k.MechanismsAlias? && SaslValue(sasl, k) == ""
  {
  }

  lemma AwsKeysBelong(f: F.Fields, o: Settings)
    requires Represents(f, o) && o.sasl.Some? && F.HasAny(f, F.AWS_FIELDS)
    ensures o.sasl.value.AwsMskIam?
  {
    if !o.sasl.value.AwsMskIam? {
      forall k | k in F.AWS_FIELDS ensures !k.Protocol? && !IsSslKey(k) && !k.MechanismsAlias?
                                        && SaslValue(o.sasl.value, k) == "" {
        AwsValues(o.sasl.value, k);
      }
      Untouched(f, o, F.AWS_FIELDS);
    }
  }

  lemma OAuthKeysBelong(f: F.Fields, o: Settings)
    requires Represents(f, o) && o.sasl.Some? && F.HasAny(f, F.OAUTH_FIELDS)
    ensures o.sasl.value.OauthbearerOidc? || o.sasl.value.GcpIam?
  {
    if !o.sasl.value.OauthbearerOidc? && !o.sasl.value.GcpIam? {
      forall k | k in F.OAUTH_FIELDS ensures !k.Protocol? && !IsSslKey(k) && !k.MechanismsAlias?
                                        && SaslValue(o.sasl.value, k) == "" {
        OAuthValues(o.sasl.value, k);
      }
      Untouched(f, o, F.OAUTH_FIELDS);
    }
  }

  lemma GcpKeysBelong(f: F.Fields, o: Settings)
    requires Represents(f, o) && o.sasl.Some? && F.HasAny(f, F.GCP_FIELDS)
    ensures o.sasl.value.GcpIam?
  {
    if !o.sasl.value.GcpIam? {
      forall k | k in F.GCP_FIELDS ensures !k.Protocol? && !IsSslKey(k) && !k.MechanismsAlias?
                                        && SaslValue(o.sasl.value, k) == "" {
        GcpValues(o.sasl.value, k);
      }
      Untouched(f, o, F.GCP_FIELDS);
    }
  }

  lemma OidcKeysBelong(f: F.Fields, o: Settings)
    requires Represents(f, o) && o.sasl.Some? && F.HasAny(f, F.OIDC_FIELDS)
    ensures o.sasl.value.OauthbearerOidc?
  {
    if !o.sasl.value.OauthbearerOidc? {
      forall k | k in F.OIDC_FIELDS ensures !k.Protocol? && !IsSslKey(k) && !k.MechanismsAlias?
                                        && SaslValue(o.sasl.value, k) == "" {
        OidcValues(o.sasl.value, k);
      }
      Untouched(f, o, F.OIDC_FIELDS);
    }
  }

  /** No family is orphaned: the keys present belong to the mechanism in force. */
  lemma NoFamilyIsOrphaned(f: F.Fields, o: Settings)
    requires Represents(f, o) && o.sasl.Some?
    ensures F.HasAny(f, F.AWS_FIELDS) ==> o.sasl.value.AwsMskIam?
    ensures F.HasAny(f, F.OAUTH_FIELDS) ==> o.sasl.value.OauthbearerOidc? || o.sasl.value.GcpIam?
    ensures F.HasAny(f, F.GCP_FIELDS) ==> o.sasl.value.GcpIam?
    ensures F.HasAny(f, F.OIDC_FIELDS) ==> o.sasl.value.OauthbearerOidc?
  {
    if F.HasAny(f, F.AWS_FIELDS) { AwsKeysBelong(f, o); }
    if F.HasAny(f, F.OAUTH_FIELDS) { OAuthKeysBelong(f, o); }
    if F.HasAny(f, F.GCP_FIELDS) { GcpKeysBelong(f, o); }
    if F.HasAny(f, F.OIDC_FIELDS) { OidcKeysBelong(f, o); }
  }

  /** Which builder a mechanism reaches when no family is orphaned. */
  lemma Dispatch(f: F.Fields, w: F.World, mechanism: F.MechanismName)
    requires F.MechanismOf(F.Get(f, Mechanism)) == mechanism
    requires F.HasAny(f, F.AWS_FIELDS) ==> mechanism.AwsMsk?
    requires F.HasAny(f, F.OAUTH_FIELDS) ==> mechanism.OAuthBearer?
    requires F.HasAny(f, F.GCP_FIELDS) ==> mechanism.OAuthBearer? && F.Get(f, OAuthMethod) == "gcp"
    ensures mechanism.PasswordBased? ==> F.BuildSasl(f, w) == F.BuildUserPass(f, mechanism.scheme)
    ensures mechanism.AwsMsk? ==> F.BuildSasl(f, w) == F.BuildAws(f, w)
    ensures mechanism.OAuthBearer? ==>
      F.BuildSasl(f, w) == if F.Get(f, OAuthMethod) == "gcp" then F.BuildGcp(f, w) else F.BuildOidc(f, w)
  {
  }

  lemma UserPassAgrees(f: F.Fields, o: Settings)
    requires Represents(f, o) && o.sasl.Some? && o.sasl.value.UserPass?
    ensures F.BuildUserPass(f, o.sasl.value.scheme) ==
      if o.sasl.value.username == "" then Err(F.UsernameMissing)
      else if o.sasl.value.password == "" then Err(F.PasswordMissing)
      else Ok(F.UserPass(o.sasl.value.scheme, o.sasl.value.username, o.sasl.value.password))
  {
    SaslField(f, o, Username);
    SaslField(f, o, Password);
  }

  lemma ProtocolField(f: F.Fields, o: Settings)
    requires Represents(f, o) && (o.tls || o.sasl.Some?)
    ensures F.Get(f, Protocol) == ProtocolName(o)
  {
    ProtocolIsUnderstood(o);
    assert F.Get(f, Protocol) == F.Stored(Protocol, Emitted(o, Protocol));
  }

  lemma AwsAgrees(f: F.Fields, o: Settings, w: F.World)
    requires Represents(f, o) && o.tls && o.sasl.Some? && o.sasl.value.AwsMskIam?
    ensures F.BuildAws(f, w) == SaslMeant(o.sasl.value, w)
  {
    ProtocolField(f, o);
    NoCredentials(f, o);
    AwsFields(f, o);
  }

  lemma AwsFields(f: F.Fields, o: Settings)
    requires Represents(f, o) && o.sasl.Some? && o.sasl.value.AwsMskIam?
    ensures F.Get(f, AwsRegion) == Trim(OrEmpty(o.sasl.value.region))
    ensures F.Get(f, AwsProfile) == Trim(OrEmpty(o.sasl.value.profile))
    ensures F.Get(f, AwsRoleArn) == Trim(OrEmpty(o.sasl.value.roleArn))
    ensures F.Get(f, AwsRoleSessionName) == Trim(OrEmpty(o.sasl.value.sessionName))
  {
    SaslField(f, o, AwsRegion);
    SaslField(f, o, AwsProfile);
    SaslField(f, o, AwsRoleArn);
    SaslField(f, o, AwsRoleSessionName);
  }

  lemma OidcFields(f: F.Fields, o: Settings)
    requires Represents(f, o) && o.sasl.Some? && o.sasl.value.OauthbearerOidc?
    ensures F.Get(f, OAuthTokenEndpoint) == Trim(o.sasl.value.endpoint)
    ensures F.Get(f, OAuthClientId) == o.sasl.value.clientId
    ensures F.Get(f, OAuthClientSecret) == o.sasl.value.clientSecret
    ensures F.Get(f, OAuthScope) == Trim(OrEmpty(o.sasl.value.scope))
    ensures F.Get(f, OAuthExtensions) == ListCodecs.JoinExtensions(o.sasl.value.extensions)
    ensures F.Get(f, OAuthMethod) == ""
  {
    SaslField(f, o, OAuthTokenEndpoint);
    SaslField(f, o, OAuthClientId);
    SaslField(f, o, OAuthClientSecret);
    SaslField(f, o, OAuthScope);
    SaslField(f, o, OAuthExtensions);
    SaslField(f, o, OAuthMethod);
    StoredEmpty(OAuthMethod);
  }

  lemma OidcAgrees(f: F.Fields, o: Settings, w: F.World)
    requires Represents(f, o) && o.sasl.Some? && o.sasl.value.OauthbearerOidc?
    ensures F.BuildOidc(f, w) == SaslMeant(o.sasl.value, w)
  {
    NoCredentials(f, o);
    OidcFields(f, o);
  }

  lemma GcpMethod(f: F.Fields, o: Settings)
    requires Represents(f, o) && o.sasl.Some? && o.sasl.value.GcpIam?
    ensures F.Get(f, OAuthMethod) == "gcp"
  {
    GcpPasses();
    SaslField(f, o, OAuthMethod);
  }

  lemma GcpFields(f: F.Fields, o: Settings)
    requires Represents(f, o) && o.sasl.Some? && o.sasl.value.GcpIam?
    ensures F.Get(f, OAuthMethod) == "gcp"
    ensures F.Get(f, GcpPrincipal) == Trim(OrEmpty(o.sasl.value.principal))
    ensures F.Get(f, GcpCredentialsFile) == Trim(OrEmpty(o.sasl.value.credentialsFile))
  {
    GcpMethod(f, o);
    SaslField(f, o, GcpPrincipal);
    SaslField(f, o, GcpCredentialsFile);
  }

  lemma GcpAgrees(f: F.Fields, o: Settings, w: F.World)
    requires Represents(f, o) && o.tls && o.sasl.Some? && o.sasl.value.GcpIam?
    ensures F.BuildGcp(f, w) == SaslMeant(o.sasl.value, w)
  {
    ProtocolField(f, o);
    GcpFields(f, o);
    NoFamilyIsOrphaned(f, o);
    NoCredentials(f, o);
  }

  lemma SaslAgrees(f: F.Fields, o: Settings, w: F.World)
    requires Represents(f, o) && Consistent(o) && o.sasl.Some?
    ensures F.BuildSasl(f, w) == SaslMeant(o.sasl.value, w)
  {
    MechanismAgrees(f, o);
    NoFamilyIsOrphaned(f, o);
    if o.sasl.value.GcpIam? { GcpFields(f, o); }
    Dispatch(f, w, MechanismMeant(o.sasl.value));
    match o.sasl.value
    case UserPass(_, _, _) => UserPassAgrees(f, o);
    case AwsMskIam(_, _, _, _) => AwsAgrees(f, o, w);
    case OauthbearerOidc(_, _, _, _, _) =>
      OidcFields(f, o);
      OidcAgrees(f, o, w);
    case GcpIam(_, _) => GcpAgrees(f, o, w);
  }

  lemma NoSaslKeys(f: F.Fields, o: Settings)
    requires Represents(f, o) && o.sasl.None?
    ensures !F.HasSaslKeys(f)
  {
    SaslField(f, o, Mechanism);
    NoCredentials(f, o);
    Untouched(f, o, F.AWS_FIELDS);
    Untouched(f, o, F.OAUTH_FIELDS);
    Untouched(f, o, F.GCP_FIELDS);
  }

  lemma NoSslKeys(f: F.Fields, o: Settings)
    requires Represents(f, o) && Consistent(o) && !o.tls
    ensures !F.HasAny(f, F.SSL_FIELDS)
  {
    forall k | k in F.SSL_FIELDS ensures F.Get(f, k) == "" {
      assert F.Get(f, k) == F.Stored(k, Emitted(o, k));
      StoredEmpty(k);
    }
  }

  lemma BuildAgrees(f: F.Fields, o: Settings, w: F.World)
    requires Represents(f, o) && Consistent(o)
    ensures F.Build(f, o.tls || o.sasl.Some?, w) == Meant(o, w)
  {
    if o.tls || o.sasl.Some? {
      ProtocolField(f, o);
      ProtocolIsUnderstood(o);
      if o.sasl.None? { NoSaslKeys(f, o); } else { SaslAgrees(f, o, w); }
      if !o.tls { NoSslKeys(f, o); } else { TlsAgrees(f, o, w); }
    }
  }

  // -- What is meant is what the chain asks for -----------------------------------------------------------

  /** Each ssl key of the map holds the argument of the last setter of its kind. */
  ghost predicate HoldsLastArguments(m: F.Fields, setters: seq<Setter>) {
    forall k: SecurityKey :: WriterOf(k).Some? ==> Found(m, k) == SslArgument(LastOf(setters, WriterOf(k).value), k)
  }

  lemma Holds(m: F.Fields, setters: seq<Setter>, k: SecurityKey, kind: Kind)
    requires HoldsLastArguments(m, setters) && WriterOf(k) == Some(kind)
    ensures Found(m, k) == SslArgument(LastOf(setters, kind), k)
  {
  }

  lemma RootsAreAskedFor(m: F.Fields, setters: seq<Setter>)
    requires HoldsLastArguments(m, setters)
    ensures F.Get(m, CaLocation) == CaFileOf(setters) && F.Get(m, CaPem) == CaTextOf(setters)
  {
    Holds(m, setters, CaLocation, CaFile);
    Holds(m, setters, CaPem, CaText);
  }

  lemma CertificateIsAskedFor(m: F.Fields, setters: seq<Setter>)
    requires HoldsLastArguments(m, setters)
    ensures (F.Get(m, CertLocation), F.Get(m, KeyLocation)) == CertificateFilesOf(setters)
    ensures (F.Get(m, CertPem), F.Get(m, KeyPem)) == CertificateTextsOf(setters)
  {
    Holds(m, setters, CertLocation, CertificateFiles);
    Holds(m, setters, KeyLocation, CertificateFiles);
    Holds(m, setters, CertPem, CertificateTexts);
    Holds(m, setters, KeyPem, CertificateTexts);
  }

  lemma TlsOfLastArguments(m: F.Fields, setters: seq<Setter>, w: F.World)
    requires HoldsLastArguments(m, setters)
    ensures var t := TlsOf(m, w);
      (t.Ok? <==> TlsIsPossible(setters, w)) && (t.Ok? ==> AsksTls(setters, t.value))
  {
    RootsAreAskedFor(m, setters);
    CertificateIsAskedFor(m, setters);
    Holds(m, setters, VerifyCertificates, NoVerification);
    Holds(m, setters, EndpointIdentification, NoHostname);
  }

  lemma TlsIsAsAsked(setters: seq<Setter>, w: F.World)
    ensures var t := TlsMeant(Run(setters), w);
      (t.Ok? <==> TlsIsPossible(setters, w)) && (t.Ok? ==> AsksTls(setters, t.value))
  {
    var m := LastWins(Run(setters).ssl);
    forall k: SecurityKey | WriterOf(k).Some?
      ensures Found(m, k) == SslArgument(LastOf(setters, WriterOf(k).value), k)
    {
      LastWriterDecides(setters, k);
    }
    TlsOfLastArguments(m, setters, w);
  }

  lemma SaslIsAsAsked(setters: seq<Setter>, i: nat, w: F.World)
    requires IsLastStart(setters, i)
    ensures Run(setters).sasl.Some?
    ensures SaslMeant(Run(setters).sasl.value, w).Ok? <==> SaslIsPossible(setters, i, w)
    ensures SaslIsPossible(setters, i, w) ==> SaslMeant(Run(setters).sasl.value, w) == Ok(AskedSasl(setters, i))
  {
    match setters[i]
    case SaslPassword(_, _, _) => PasswordInForce(setters, i);
    case SaslAwsMskIam => AwsInForce(setters, i);
    case SaslOauthbearerOidc(_, _, _) => OidcInForce(setters, i);
    case SaslGcpIam => GcpInForce(setters, i);
  }

  lemma SameLastStart(setters: seq<Setter>, i: nat, j: nat)
    requires IsLastStart(setters, i) && IsLastStart(setters, j)
    ensures i == j
  {
  }

  /** What the settings mean is the client the chain asks for, and there is one exactly when what
      is asked for is possible. */
  lemma MeantIsAskedFor(setters: seq<Setter>, w: F.World)
    ensures var r := Meant(Run(setters), w);
      (r.Ok? <==> IsPossible(setters, w)) && (r.Ok? ==> IsAskedFor(setters, r.value))
  {
    TlsIsAskedFor(setters);
    SaslIsAskedFor(setters);
    TlsIsAsAsked(setters, w);
    if i :| IsLastStart(setters, i) {
      SaslIsAsAsked(setters, i, w);
      forall j | IsLastStart(setters, j) ensures j == i { SameLastStart(setters, i, j); }
    }
  }

  /** For every chain of typed setters without string security keys, in whatever order the bridge
      meets the keys of the resulting map, it builds exactly the client the setters ask for, or
      reports the first bad value among them; and it builds one exactly when what they ask for is
      possible. */
  lemma SettersMeanWhatTheySay(setters: seq<Setter>, pairs: seq<(Key, string)>, w: F.World)
    requires NoStringSecurity(Run(setters)) && LastWins(pairs) == LastWins(Entries(Run(setters)))
    ensures var r := F.Build(CollectAll(pairs), SawKey(pairs), w);
      && r == Meant(Run(setters), w)
      && (r.Ok? <==> IsPossible(setters, w)) && (r.Ok? ==> IsAskedFor(setters, r.value))
  {
    var o := Run(setters);
    EveryChainIsConsistent(setters);
    CollectingGivesWhatWasEmitted(o, pairs);
    BuildAgrees(CollectAll(pairs), o, w);
    MeantIsAskedFor(setters, w);
  }

  lemma TlsIsNeverStructural(o: Settings, w: F.World)
    ensures TlsMeant(o, w).Err? ==> !F.Structural(TlsMeant(o, w).error)
  {
  }

  lemma SaslIsNeverStructural(sasl: HostSasl, w: F.World)
    ensures SaslMeant(sasl, w).Err? ==> !F.Structural(SaslMeant(sasl, w).error)
  {
  }

  lemma MeantIsNeverStructural(o: Settings, w: F.World)
    ensures Meant(o, w).Err? ==> !F.Structural(Meant(o, w).error)
  {
    TlsIsNeverStructural(o, w);
    if o.sasl.Some? { SaslIsNeverStructural(o.sasl.value, w); }
  }

  /** So such a chain never meets a protocol conflict, an orphaned family of keys or a refusal of
      an unencrypted transport: only its values can be at fault. */
  lemma OnlyValuesCanBeRefused(setters: seq<Setter>, pairs: seq<(Key, string)>, w: F.World)
    requires NoStringSecurity(Run(setters)) && LastWins(pairs) == LastWins(Entries(Run(setters)))
    ensures var r := F.Build(CollectAll(pairs), SawKey(pairs), w); r.Err? ==> !F.Structural(r.error)
  {
    SettersMeanWhatTheySay(setters, pairs, w);
    MeantIsNeverStructural(Run(setters), w);
  }
}
