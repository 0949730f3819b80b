/** The option pairs the host prints for a chain of setters, by the names it prints. */
module PrintedSetters {
  import opened Common
  import opened Pairs
  import opened SecurityKeys
  import opened Options
  import opened SecurityComposition
  import opened SetterLaws
  import F = FranzSecurity
  import ListCodecs

  /** Option pairs under their names, as the host prints them. */
  function Named(pairs: seq<(Key, string)>): (r: seq<Pair>)
    ensures |r| == |pairs|
  {
    seq(|pairs|, i requires 0 <= i < |pairs| => (NameOf(pairs[i].0), pairs[i].1))
  }

  predicate Canonical(key: Key) {
    KeyFor(NameOf(key)) == key
  }

  predicate AllCanonical(pairs: seq<(Key, string)>) {
    forall i :: 0 <= i < |pairs| ==> Canonical(pairs[i].0)
  }

  /** Naming the keys loses nothing: every key keeps its last value under its name. */
  lemma {:induction false} NamedKeepsValues(pairs: seq<(Key, string)>, key: Key)
    requires AllCanonical(pairs) && Canonical(key)
    ensures NameOf(key) in LastWins(Named(pairs)) <==> key in LastWins(pairs)
    ensures key in LastWins(pairs) ==> LastWins(Named(pairs))[NameOf(key)] == LastWins(pairs)[key]
  {
    if pairs != [] {
      var front := pairs[..|pairs| - 1];
      assert Named(pairs)[..|pairs| - 1] == Named(front);
      NamedKeepsValues(front, key);
      assert Canonical(pairs[|pairs| - 1].0);
    }
  }

  lemma {:induction false} EveryEntryIsCanonical(setters: seq<Setter>)
    ensures AllCanonical(Run(setters).entries)
  {
    if setters != [] {
      var front, last := setters[..|setters| - 1], setters[|setters| - 1];
      EveryEntryIsCanonical(front);
      if last.ClientOption? { NamesAndKeysMatch(last.name, Protocol); }
    }
  }

  lemma SecurityKeysAreCanonical(o: Settings)
    requires AllCanonical(o.entries)
    ensures AllCanonical(Entries(o))
  {
    var tagged := Tagged(SecurityPairs(o));
    forall i | 0 <= i < |tagged| ensures Canonical(tagged[i].0) {
      KeyOfWireName(SecurityPairs(o)[i].0);
    }
  }

  // -- What is printed under a name ------------------------------------------------------------------

  /** The map the printed pairs stand for. */
  function PrintedMap(setters: seq<Setter>): map<string, string> {
    LastWins(Named(Entries(Run(setters))))
  }

  lemma NameIsPrinted(setters: seq<Setter>, key: Key)
    requires Canonical(key)
    ensures Found(PrintedMap(setters), NameOf(key)) == Found(LastWins(Entries(Run(setters))), key)
  {
    EveryEntryIsCanonical(setters);
    SecurityKeysAreCanonical(Run(setters));
    NamedKeepsValues(Entries(Run(setters)), key);
  }

  lemma NoStringsUnderSecurityKeys(o: Settings, k: SecurityKey)
    requires NoStringSecurity(o)
    ensures Found(LastWins(Entries(o)), Secure(k)) == Found(LastWins(SecurityPairs(o)), k)
  {
    LastWinsOfConcat(o.entries, Tagged(SecurityPairs(o)));
    TaggedKeepsValues(SecurityPairs(o), Secure(k));
    KeysOfLastWins(o.entries, Secure(k));
  }

  /** What is printed under a security key. */
  lemma SecurityIsPrinted(setters: seq<Setter>, k: SecurityKey, name: string)
    requires NoStringSecurity(Run(setters)) && !k.MechanismsAlias? && name == WireName(k)
    ensures Found(PrintedMap(setters), name) == EmittedEntry(Run(setters), k)
  {
    KeyOfWireName(k);
    NameIsPrinted(setters, Secure(k));
    NoStringsUnderSecurityKeys(Run(setters), k);
    EveryChainIsConsistent(setters);
    EntryIsInThePairs(Run(setters), k);
  }

  /** Under the name of every security key the map holds what the settings emit for it, and
      nothing when they emit nothing. */
  ghost predicate Prints(m: map<string, string>, o: Settings) {
    forall k: SecurityKey :: !k.MechanismsAlias? ==> Found(m, WireName(k)) == EmittedEntry(o, k)
  }

  lemma PrintedMapPrints(setters: seq<Setter>)
    requires NoStringSecurity(Run(setters))
    ensures Prints(PrintedMap(setters), Run(setters))
  {
    forall k: SecurityKey | !k.MechanismsAlias?
      ensures Found(PrintedMap(setters), WireName(k)) == EmittedEntry(Run(setters), k)
    {
      SecurityIsPrinted(setters, k, WireName(k));
    }
  }

  /** What is printed under a key of the mechanism in force. */
  lemma MechanismIsPrinted(m: map<string, string>, o: Settings, sasl: HostSasl, k: SecurityKey, name: string, value: Option<string>)
    requires Prints(m, o) && o.sasl == Some(sasl)
    requires !k.Protocol? && !IsSslKey(k) && !k.MechanismsAlias?
    requires name == WireName(k) && value == SaslEntry(sasl, k)
    ensures Found(m, name) == value
  {
  }

  /** An ordinary option is printed with the value it was last given. */
  lemma OptionsArePrinted(setters: seq<Setter>, name: string)
    requires KeyFor(name).Other?
    ensures Found(PrintedMap(setters), name) == LastOption(setters, name)
  {
    NamesAndKeysMatch(name, Protocol);
    var o, key := Run(setters), KeyFor(name);
    NameIsPrinted(setters, key);
    LastWinsOfConcat(o.entries, Tagged(SecurityPairs(o)));
    TaggedKeepsValues(SecurityPairs(o), key);
    LastOptionDecides(setters, name);
  }

  lemma ProtocolOfFlags(m: map<string, string>, o: Settings, tls: bool, sasl: bool)
    requires Prints(m, o) && o.tls == tls && o.sasl.Some? == sasl
    ensures Found(m, "security.protocol") ==
      if tls && sasl then Some("sasl_ssl")
      else if tls then Some("ssl")
      else if sasl then Some("sasl_plaintext")
      else None
  {
    assert Found(m, WireName(Protocol)) == EmittedEntry(o, Protocol);
  }

  /** The protocol says what the chain asks for. */
  lemma ProtocolIsPrinted(m: map<string, string>, setters: seq<Setter>)
    requires Prints(m, Run(setters))
    ensures var tls := exists i :: 0 <= i < |setters| && AsksForTls(setters[i]);
      var sasl := exists i :: IsLastStart(setters, i);
      Found(m, "security.protocol") ==
        if tls && sasl then Some("sasl_ssl")
        else if tls then Some("ssl")
        else if sasl then Some("sasl_plaintext")
        else None
  {
    TlsIsAskedFor(setters);
    SaslIsAskedFor(setters);
    ProtocolOfFlags(m, Run(setters), Run(setters).tls, Run(setters).sasl.Some?);
  }

  lemma SslHolds(m: map<string, string>, o: Settings, k: SecurityKey, name: string)
    requires Prints(m, o) && Consistent(o) && IsSslKey(k) && name == WireName(k)
    ensures Found(m, name) == Found(LastWins(o.ssl), k)
  {
    assert Found(m, WireName(k)) == EmittedEntry(o, k);
  }

  lemma SslIsPrinted(m: map<string, string>, setters: seq<Setter>, k: SecurityKey, name: string, kind: Kind,
                     value: Option<string>)
    requires Prints(m, Run(setters)) && WriterOf(k) == Some(kind) && name == WireName(k)
    requires value == SslArgument(LastOf(setters, kind), k)
    ensures Found(m, name) == value
  {
    EveryChainIsConsistent(setters);
    SslHolds(m, Run(setters), k, name);
    LastWriterDecides(setters, k);
  }

  /** Where the CA certificates come from: the argument of the last setter of each kind. */
  lemma CaIsPrinted(m: map<string, string>, setters: seq<Setter>)
    requires Prints(m, Run(setters))
    ensures var file, text := LastOf(setters, CaFile), LastOf(setters, CaText);
      && Found(m, "ssl.ca.location") == (if file.Some? then Some(file.value.path) else None)
      && Found(m, "ssl.ca.pem") == (if text.Some? then Some(text.value.pem) else None)
  {
    var file, text := LastOf(setters, CaFile), LastOf(setters, CaText);
    SslIsPrinted(m, setters, CaLocation, "ssl.ca.location", CaFile, if file.Some? then Some(file.value.path) else None);
    SslIsPrinted(m, setters, CaPem, "ssl.ca.pem", CaText, if text.Some? then Some(text.value.pem) else None);
  }

  /** The client certificate and its key, each under its own name: from files, */
  lemma CertificateFilesArePrinted(m: map<string, string>, setters: seq<Setter>)
    requires Prints(m, Run(setters))
    ensures var files := LastOf(setters, CertificateFiles);
      && Found(m, "ssl.certificate.location") == (if files.Some? then Some(files.value.certificatePath) else None)
      && Found(m, "ssl.key.location") == (if files.Some? then Some(files.value.keyPath) else None)
  {
    var files := LastOf(setters, CertificateFiles);
    SslIsPrinted(m, setters, CertLocation, "ssl.certificate.location", CertificateFiles,
                 if files.Some? then Some(files.value.certificatePath) else None);
    SslIsPrinted(m, setters, KeyLocation, "ssl.key.location", CertificateFiles,
                 if files.Some? then Some(files.value.keyPath) else None);
  }

  /** and as texts. */
  lemma CertificateTextsArePrinted(m: map<string, string>, setters: seq<Setter>)
    requires Prints(m, Run(setters))
    ensures var texts := LastOf(setters, CertificateTexts);
      && Found(m, "ssl.certificate.pem") == (if texts.Some? then Some(texts.value.certificatePem) else None)
      && Found(m, "ssl.key.pem") == (if texts.Some? then Some(texts.value.keyPem) else None)
  {
    var texts := LastOf(setters, CertificateTexts);
    SslIsPrinted(m, setters, CertPem, "ssl.certificate.pem", CertificateTexts,
                 if texts.Some? then Some(texts.value.certificatePem) else None);
    SslIsPrinted(m, setters, KeyPem, "ssl.key.pem", CertificateTexts,
                 if texts.Some? then Some(texts.value.keyPem) else None);
  }

  /** The checks of the server's certificate and of its host name are switched off exactly when
      the chain says so. */
  lemma VerificationIsPrinted(m: map<string, string>, setters: seq<Setter>)
    requires Prints(m, Run(setters))
    ensures Found(m, "enable.ssl.certificate.verification") ==
      if LastOf(setters, NoVerification).Some? then Some("false") else None
  {
    SslIsPrinted(m, setters, VerifyCertificates, "enable.ssl.certificate.verification", NoVerification,
                 if LastOf(setters, NoVerification).Some? then Some("false") else None);
  }

  lemma HostnameCheckIsPrinted(m: map<string, string>, setters: seq<Setter>)
    requires Prints(m, Run(setters))
    ensures Found(m, "ssl.endpoint.identification.algorithm") ==
      if LastOf(setters, NoHostname).Some? then Some("none") else None
  {
    SslIsPrinted(m, setters, EndpointIdentification, "ssl.endpoint.identification.algorithm", NoHostname,
                 if LastOf(setters, NoHostname).Some? then Some("none") else None);
  }

  lemma PasswordsArePrinted(m: map<string, string>, o: Settings, scheme: F.PasswordScheme, user: string, secret: string)
    requires Prints(m, o) && o.sasl == Some(UserPass(scheme, user, secret))
    ensures
      && Found(m, "sasl.username") == Some(user) && Found(m, "sasl.password") == Some(secret)
      && Found(m, "sasl.mechanism") ==
           Some(match scheme case Plain => "PLAIN" case ScramSha256 => "SCRAM-SHA-256" case ScramSha512 => "SCRAM-SHA-512")
  {
    var sasl := UserPass(scheme, user, secret);
    MechanismIsPrinted(m, o, sasl, Username, "sasl.username", Some(user));
    MechanismIsPrinted(m, o, sasl, Password, "sasl.password", Some(secret));
    MechanismIsPrinted(m, o, sasl, Mechanism, "sasl.mechanism", Some(MechanismText(scheme)));
  }

  /** The password setters: the last sasl_* setter's own arguments, under their own names. */
  lemma PasswordIsPrinted(m: map<string, string>, setters: seq<Setter>, i: nat)
    requires Prints(m, Run(setters)) && IsLastStart(setters, i) && setters[i].SaslPassword?
    ensures var s := setters[i];
      && Found(m, "sasl.username") == Some(s.username)
      && Found(m, "sasl.password") == Some(s.password)
      && Found(m, "sasl.mechanism") ==
           Some(match s.scheme case Plain => "PLAIN" case ScramSha256 => "SCRAM-SHA-256" case ScramSha512 => "SCRAM-SHA-512")
  {
    PasswordInForce(setters, i);
    PasswordsArePrinted(m, Run(setters), setters[i].scheme, setters[i].username, setters[i].password);
  }

  lemma AwsArePrinted(m: map<string, string>, o: Settings, region: Option<string>, profile: Option<string>, arn: Option<string>,
                      session: Option<string>)
    requires Prints(m, o)
    requires o.sasl == Some(HostSasl.AwsMskIam(region, profile, arn, session))
    ensures
      && Found(m, "sasl.mechanism") == Some("AWS_MSK_IAM")
      && Found(m, "aws.region") == region && Found(m, "aws.profile") == profile
      && Found(m, "aws.role.arn") == arn && Found(m, "aws.role.session.name") == session
  {
    var sasl := HostSasl.AwsMskIam(region, profile, arn, session);
    MechanismIsPrinted(m, o, sasl, Mechanism, "sasl.mechanism", Some("AWS_MSK_IAM"));
    MechanismIsPrinted(m, o, sasl, AwsRegion, "aws.region", region);
    MechanismIsPrinted(m, o, sasl, AwsProfile, "aws.profile", profile);
    MechanismIsPrinted(m, o, sasl, AwsRoleArn, "aws.role.arn", arn);
    MechanismIsPrinted(m, o, sasl, AwsRoleSessionName, "aws.role.session.name", session);
  }

  /** AWS: each refining name holds the argument of its last refiner after the last sasl_* setter,
      and is absent when there is none. */
  lemma AwsIsPrinted(m: map<string, string>, setters: seq<Setter>, i: nat)
    requires Prints(m, Run(setters)) && IsLastStart(setters, i) && setters[i].SaslAwsMskIam?
    ensures var after := setters[i + 1..];
      && Found(m, "sasl.mechanism") == Some("AWS_MSK_IAM")
      && Found(m, "aws.region") == RegionOf(LastOf(after, Region))
      && Found(m, "aws.profile") == ProfileOf(LastOf(after, Profile))
      && Found(m, "aws.role.arn") == RoleArnOf(LastOf(after, Role))
      && Found(m, "aws.role.session.name") == SessionNameOf(LastOf(after, Role))
  {
    var after := setters[i + 1..];
    var role := LastOf(after, Role);
    AwsInForce(setters, i);
    AwsArePrinted(m, Run(setters), RegionOf(LastOf(after, Region)), ProfileOf(LastOf(after, Profile)),
                  RoleArnOf(role), SessionNameOf(role));
  }

  lemma OidcCoreIsPrinted(m: map<string, string>, o: Settings, url: string, id: string, secret: string, scope: Option<string>,
                          extensions: seq<Pair>)
    requires Prints(m, o)
    requires o.sasl == Some(OauthbearerOidc(url, id, secret, scope, extensions))
    ensures
      && Found(m, "sasl.mechanism") == Some("OAUTHBEARER")
      && Found(m, "sasl.oauthbearer.token.endpoint.url") == Some(url)
      && Found(m, "sasl.oauthbearer.client.id") == Some(id)
      && Found(m, "sasl.oauthbearer.client.secret") == Some(secret)
  {
    var sasl := OauthbearerOidc(url, id, secret, scope, extensions);
    MechanismIsPrinted(m, o, sasl, Mechanism, "sasl.mechanism", Some("OAUTHBEARER"));
    MechanismIsPrinted(m, o, sasl, OAuthTokenEndpoint, "sasl.oauthbearer.token.endpoint.url", Some(url));
    MechanismIsPrinted(m, o, sasl, OAuthClientId, "sasl.oauthbearer.client.id", Some(id));
    MechanismIsPrinted(m, o, sasl, OAuthClientSecret, "sasl.oauthbearer.client.secret", Some(secret));
  }

  lemma OidcRestIsPrinted(m: map<string, string>, o: Settings, url: string, id: string, secret: string, scope: Option<string>,
                          extensions: seq<Pair>)
    requires Prints(m, o)
    requires o.sasl == Some(OauthbearerOidc(url, id, secret, scope, extensions))
    ensures
      && Found(m, "sasl.oauthbearer.scope") == scope
      && Found(m, "sasl.oauthbearer.extensions") ==
           (if extensions == [] then None else Some(ListCodecs.JoinExtensions(extensions)))
      && Found(m, "sasl.oauthbearer.method") == None
  {
    var sasl := OauthbearerOidc(url, id, secret, scope, extensions);
    MechanismIsPrinted(m, o, sasl, OAuthScope, "sasl.oauthbearer.scope", scope);
    MechanismIsPrinted(m, o, sasl, OAuthExtensions, "sasl.oauthbearer.extensions",
                       if extensions == [] then None else Some(ListCodecs.JoinExtensions(extensions)));
    MechanismIsPrinted(m, o, sasl, OAuthMethod, "sasl.oauthbearer.method", None);
  }

  /** OIDC: the endpoint and the client's credentials of the last sasl_* setter. */
  lemma OidcIsPrinted(m: map<string, string>, setters: seq<Setter>, i: nat)
    requires Prints(m, Run(setters)) && IsLastStart(setters, i) && setters[i].SaslOauthbearerOidc?
    ensures var s := setters[i];
      && Found(m, "sasl.mechanism") == Some("OAUTHBEARER")
      && Found(m, "sasl.oauthbearer.token.endpoint.url") == Some(s.url)
      && Found(m, "sasl.oauthbearer.client.id") == Some(s.clientId)
      && Found(m, "sasl.oauthbearer.client.secret") == Some(s.clientSecret)
  {
    var s, after := setters[i], setters[i + 1..];
    OidcInForce(setters, i);
    OidcCoreIsPrinted(m, Run(setters), s.url, s.clientId, s.clientSecret, ScopeOf(LastOf(after, Scope)),
                      ExtensionsOf(LastOf(after, Extensions)));
  }

  /** And its refinements; an empty list of extensions prints nothing. */
  lemma OidcRefinementsArePrinted(m: map<string, string>, setters: seq<Setter>, i: nat)
    requires Prints(m, Run(setters)) && IsLastStart(setters, i) && setters[i].SaslOauthbearerOidc?
    ensures var after := setters[i + 1..];
      && Found(m, "sasl.oauthbearer.scope") == ScopeOf(LastOf(after, Scope))
      && (var pairs := ExtensionsOf(LastOf(after, Extensions));
          Found(m, "sasl.oauthbearer.extensions") ==
            if pairs == [] then None else Some(ListCodecs.JoinExtensions(pairs)))
      && Found(m, "sasl.oauthbearer.method") == None
  {
    var s, after := setters[i], setters[i + 1..];
    OidcInForce(setters, i);
    OidcRestIsPrinted(m, Run(setters), s.url, s.clientId, s.clientSecret, ScopeOf(LastOf(after, Scope)),
                      ExtensionsOf(LastOf(after, Extensions)));
  }

  lemma GcpArePrinted(m: map<string, string>, o: Settings, principal: Option<string>, file: Option<string>)
    requires Prints(m, o) && o.sasl == Some(HostSasl.GcpIam(principal, file))
    ensures
      && Found(m, "sasl.mechanism") == Some("OAUTHBEARER")
      && Found(m, "sasl.oauthbearer.method") == Some("gcp")
      && Found(m, "gcp.principal") == principal && Found(m, "gcp.credentials.file") == file
  {
    var sasl := HostSasl.GcpIam(principal, file);
    MechanismIsPrinted(m, o, sasl, Mechanism, "sasl.mechanism", Some("OAUTHBEARER"));
    MechanismIsPrinted(m, o, sasl, OAuthMethod, "sasl.oauthbearer.method", Some("gcp"));
    MechanismIsPrinted(m, o, sasl, GcpPrincipal, "gcp.principal", principal);
    MechanismIsPrinted(m, o, sasl, GcpCredentialsFile, "gcp.credentials.file", file);
  }

  /** Google Cloud. */
  lemma GcpIsPrinted(m: map<string, string>, setters: seq<Setter>, i: nat)
    requires Prints(m, Run(setters)) && IsLastStart(setters, i) && setters[i].SaslGcpIam?
    ensures var after := setters[i + 1..];
      && Found(m, "sasl.mechanism") == Some("OAUTHBEARER")
      && Found(m, "sasl.oauthbearer.method") == Some("gcp")
      && Found(m, "gcp.principal") == PrincipalOf(LastOf(after, Principal))
      && Found(m, "gcp.credentials.file") == CredentialsFileOf(LastOf(after, CredentialsFile))
  {
    var after := setters[i + 1..];
    GcpInForce(setters, i);
    GcpArePrinted(m, Run(setters), PrincipalOf(LastOf(after, Principal)), CredentialsFileOf(LastOf(after, CredentialsFile)));
  }

  /** The keys a mechanism's setters can print. */
  predicate BelongsTo(k: SecurityKey, start: Setter) {
    || k.Mechanism?
    || (start.SaslPassword? && (k.Username? || k.Password?))
    || (start.SaslAwsMskIam? && (k.AwsRegion? || k.AwsProfile? || k.AwsRoleArn? || k.AwsRoleSessionName?))
    || (start.SaslOauthbearerOidc? &&
        (k.OAuthTokenEndpoint? || k.OAuthClientId? || k.OAuthClientSecret? || k.OAuthScope? || k.OAuthExtensions?))
    || (start.SaslGcpIam? && (k.OAuthMethod? || k.GcpPrincipal? || k.GcpCredentialsFile?))
  }

  lemma OtherEntriesAreAbsent(sasl: HostSasl, start: Setter, k: SecurityKey)
    requires !k.Protocol? && !IsSslKey(k) && !BelongsTo(k, start)
    requires start.SaslPassword? ==> sasl.UserPass?
    requires start.SaslAwsMskIam? ==> sasl.AwsMskIam?
    requires start.SaslOauthbearerOidc? ==> sasl.OauthbearerOidc?
    requires start.SaslGcpIam? ==> sasl.GcpIam?
    requires StartsSasl(start)
    ensures SaslEntry(sasl, k) == None
  {
  }

  /** Nothing is printed under the names of any other mechanism, whatever setters came before. */
  lemma OtherMechanismsAreAbsent(m: map<string, string>, setters: seq<Setter>, i: nat, k: SecurityKey)
    requires Prints(m, Run(setters)) && IsLastStart(setters, i)
    requires !k.Protocol? && !IsSslKey(k) && !k.MechanismsAlias? && !BelongsTo(k, setters[i])
    ensures Found(m, WireName(k)) == None
  {
    match setters[i] {
      case SaslPassword(_, _, _) => PasswordInForce(setters, i);
      case SaslAwsMskIam => AwsInForce(setters, i);
      case SaslOauthbearerOidc(_, _, _) => OidcInForce(setters, i);
      case SaslGcpIam => GcpInForce(setters, i);
    }
    OtherEntriesAreAbsent(Run(setters).sasl.value, setters[i], k);
    MechanismIsPrinted(m, Run(setters), Run(setters).sasl.value, k, WireName(k), None);
  }

  /** Nor under any mechanism's without a sasl_* setter. */
  lemma NoMechanismNothingPrinted(m: map<string, string>, setters: seq<Setter>, k: SecurityKey)
    requires Prints(m, Run(setters)) && !exists i :: IsLastStart(setters, i)
    requires !k.Protocol? && !IsSslKey(k) && !k.MechanismsAlias?
    ensures Found(m, WireName(k)) == None
  {
    SaslIsAskedFor(setters);
  }

  // -- Which string pairs the builder refuses ----------------------------------------------------------

  /** The security setters of the chain can emit the key. */
  ghost predicate CanEmit(setters: seq<Setter>, k: SecurityKey) {
    || (k.Protocol? &&
        ((exists i :: 0 <= i < |setters| && AsksForTls(setters[i])) || exists i :: IsLastStart(setters, i)))
    || (WriterOf(k).Some? && LastOf(setters, WriterOf(k).value).Some?)
    || (exists i: nat :: IsLastStart(setters, i) && (k.MechanismsAlias? || BelongsTo(k, setters[i])))
  }

  lemma SslKeysAreTheWritten(setters: seq<Setter>, k: SecurityKey)
    ensures k in LastWins(Run(setters).ssl) <==> WriterOf(k).Some? && LastOf(setters, WriterOf(k).value).Some?
  {
    EveryChainIsConsistent(setters);
    if WriterOf(k).Some? {
      LastWriterDecides(setters, k);
    } else {
      if IsSslKey(k) { NoPasswordIsWritten(Run(setters), k); } else { SslPairsAvoid(Run(setters), k); }
    }
  }

  lemma NoPasswordIsWritten(o: Settings, k: SecurityKey)
    requires Consistent(o) && IsSslKey(k) && WriterOf(k).None?
    ensures k !in LastWins(o.ssl)
  {
    KeysOfLastWins(o.ssl, k);
    if i :| 0 <= i < |o.ssl| && o.ssl[i].0 == k { assert TypedSslPair(o.ssl[i]); }
  }

  lemma PasswordKeysBelong(sasl: HostSasl, start: Setter, k: SecurityKey)
    requires start.SaslPassword? && sasl.UserPass?
    ensures k in SaslKeys(sasl) <==> k.MechanismsAlias? || BelongsTo(k, start)
  {
  }

  lemma AwsKeysBelong(sasl: HostSasl, start: Setter, k: SecurityKey)
    requires start.SaslAwsMskIam? && sasl.AwsMskIam?
    ensures k in SaslKeys(sasl) <==> k.MechanismsAlias? || BelongsTo(k, start)
  {
  }

  lemma OidcKeysBelong(sasl: HostSasl, start: Setter, k: SecurityKey)
    requires start.SaslOauthbearerOidc? && sasl.OauthbearerOidc?
    ensures k in SaslKeys(sasl) <==> k.MechanismsAlias? || BelongsTo(k, start)
  {
  }

  lemma GcpKeysBelong(sasl: HostSasl, start: Setter, k: SecurityKey)
    requires start.SaslGcpIam? && sasl.GcpIam?
    ensures k in SaslKeys(sasl) <==> k.MechanismsAlias? || BelongsTo(k, start)
  {
  }

  lemma MechanismKeysBelong(setters: seq<Setter>, i: nat, k: SecurityKey)
    requires IsLastStart(setters, i)
    ensures Run(setters).sasl.Some?
    ensures k in SaslKeys(Run(setters).sasl.value) <==> k.MechanismsAlias? || BelongsTo(k, setters[i])
  {
    match setters[i]
    case SaslPassword(_, _, _) =>
      PasswordInForce(setters, i);
      PasswordKeysBelong(Run(setters).sasl.value, setters[i], k);
    case SaslAwsMskIam =>
      AwsInForce(setters, i);
      AwsKeysBelong(Run(setters).sasl.value, setters[i], k);
    case SaslOauthbearerOidc(_, _, _) =>
      OidcInForce(setters, i);
      OidcKeysBelong(Run(setters).sasl.value, setters[i], k);
    case SaslGcpIam =>
      GcpInForce(setters, i);
      GcpKeysBelong(Run(setters).sasl.value, setters[i], k);
  }

  lemma MechanismKeysAreEmittable(setters: seq<Setter>, k: SecurityKey)
    ensures (Run(setters).sasl.Some? && k in SaslKeys(Run(setters).sasl.value)) <==>
      exists i: nat :: IsLastStart(setters, i) && (k.MechanismsAlias? || BelongsTo(k, setters[i]))
  {
    SaslIsAskedFor(setters);
    forall i: nat | IsLastStart(setters, i)
      ensures Run(setters).sasl.Some?
      ensures k in SaslKeys(Run(setters).sasl.value) <==> k.MechanismsAlias? || BelongsTo(k, setters[i])
    {
      MechanismKeysBelong(setters, i, k);
    }
  }

  lemma TypedKeysOf(o: Settings, k: SecurityKey)
    ensures k in TypedSecurityKeys(o) <==>
      (o.tls || o.sasl.Some?) && (k.Protocol? || k in LastWins(o.ssl) || (o.sasl.Some? && k in SaslKeys(o.sasl.value)))
  {
    KeysOfLastWins(o.ssl, k);
    assert k in KeysOf(o.ssl) <==> exists i :: 0 <= i < |o.ssl| && o.ssl[i].0 == k;
  }

  /** The typed keys are those the chain's security setters can emit. */
  lemma TypedKeysAreEmittable(setters: seq<Setter>, k: SecurityKey)
    ensures k in TypedSecurityKeys(Run(setters)) <==> CanEmit(setters, k)
  {
    var o := Run(setters);
    TypedKeysOf(o, k);
    TlsIsAskedFor(setters);
    SaslIsAskedFor(setters);
    SslKeysAreTheWritten(setters, k);
    MechanismKeysAreEmittable(setters, k);
    EveryChainIsConsistent(setters);
    assert k in LastWins(o.ssl) ==> o.ssl != [];
  }

  /** The builder refuses a chain exactly when a string pair names a key that the chain's typed
      security setters can emit too, the alias of the mechanism included. */
  lemma StringPairsAreRefusedExactly(setters: seq<Setter>)
    ensures Unambiguous(Run(setters)) <==>
      forall k: SecurityKey :: LastOption(setters, WireName(k)).Some? ==> !CanEmit(setters, k)
  {
    var o := Run(setters);
    forall k: SecurityKey
      ensures LastOption(setters, WireName(k)).Some? <==> exists i :: 0 <= i < |o.entries| && o.entries[i].0 == Secure(k)
      ensures k in TypedSecurityKeys(o) <==> CanEmit(setters, k)
    {
      LastOptionDecides(setters, WireName(k));
      KeyOfWireName(k);
      KeysOfLastWins(o.entries, Secure(k));
      TypedKeysAreEmittable(setters, k);
    }
    if Unambiguous(o) {
      forall k: SecurityKey | LastOption(setters, WireName(k)).Some? ensures !CanEmit(setters, k) {
        var i :| 0 <= i < |o.entries| && o.entries[i].0 == Secure(k);
      }
    } else {
      var i :| 0 <= i < |o.entries| && o.entries[i].0.Secure? && o.entries[i].0.key in TypedSecurityKeys(o);
      assert LastOption(setters, WireName(o.entries[i].0.key)).Some?;
    }
  }
}
