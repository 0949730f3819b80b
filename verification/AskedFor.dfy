/** The client a chain of setters asks for, read off the chain: the last setter of each kind decides,
    and a mechanism's refinements count from its own sasl_* setter on. */
module AskedFor {
  import opened Common
  import opened Text
  import opened Pairs
  import opened Options
  import opened SecurityComposition
  import opened SetterLaws
  import F = FranzSecurity
  import ListCodecs

  // -- TLS --------------------------------------------------------------------------------------------

  /** The arguments of the last setters; the empty string without one. */
  function CaFileOf(setters: seq<Setter>): string {
    var s := LastOf(setters, CaFile);
    if s.Some? then s.value.path else ""
  }

  function CaTextOf(setters: seq<Setter>): string {
    var s := LastOf(setters, CaText);
    if s.Some? then s.value.pem else ""
  }

  function CertificateFilesOf(setters: seq<Setter>): (string, string) {
    var s := LastOf(setters, CertificateFiles);
    if s.Some? then (s.value.certificatePath, s.value.keyPath) else ("", "")
  }

  function CertificateTextsOf(setters: seq<Setter>): (string, string) {
    var s := LastOf(setters, CertificateTexts);
    if s.Some? then (s.value.certificatePem, s.value.keyPem) else ("", "")
  }

  /** The TLS settings that are asked for. */
  ghost predicate AsksTls(setters: seq<Setter>, t: F.Tls) {
    var (file, text, files, texts) :=
      (CaFileOf(setters), CaTextOf(setters), CertificateFilesOf(setters), CertificateTextsOf(setters));
    && t.roots == (if file != "" then F.FileRoots(file) else if text != "" then F.PemRoots(text) else F.SystemRoots)
    && t.certificate ==
         (if files.0 != "" then F.FileCertificate(files.0, files.1)
          else if texts.0 != "" then F.PemCertificate(texts.0, texts.1)
          else F.NoCertificate)
    && t.verification ==
         (if LastOf(setters, NoVerification).Some? then F.Off
          else if LastOf(setters, NoHostname).Some? then F.ChainOnly
          else F.Full)
  }

  /** They do not contradict each other, and their files can be used. */
  predicate TlsIsPossible(setters: seq<Setter>, w: F.World) {
    var (file, text, files, texts) :=
      (CaFileOf(setters), CaTextOf(setters), CertificateFilesOf(setters), CertificateTextsOf(setters));
    && !(file != "" && text != "")
    && (file != "" ==> w.caReadable) && (file != "" || text != "" ==> w.caParses)
    && !((files.0 != "" || files.1 != "") && (texts.0 != "" || texts.1 != ""))
    && (files.0 != "" <==> files.1 != "") && (texts.0 != "" <==> texts.1 != "")
    && (files.0 != "" || texts.0 != "" ==> w.certificateLoads)
  }

  // -- SASL -------------------------------------------------------------------------------------------

  /** The mechanism that setter i starts, with the refinements after it. */
  function AskedSasl(setters: seq<Setter>, i: nat): F.Sasl
    requires IsLastStart(setters, i)
  {
    var after := setters[i + 1..];
    match setters[i]
    case SaslPassword(scheme, username, password) => F.UserPass(scheme, username, password)
    case SaslAwsMskIam =>
      F.Sasl.AwsMskIam(
        Trim(OrEmpty(RegionOf(LastOf(after, Region)))), Trim(OrEmpty(ProfileOf(LastOf(after, Profile)))),
        Trim(OrEmpty(RoleArnOf(LastOf(after, Role)))), Trim(OrEmpty(SessionNameOf(LastOf(after, Role)))))
    case SaslOauthbearerOidc(url, clientId, clientSecret) =>
      var read := ListCodecs.ParseExtensions(ListCodecs.JoinExtensions(ExtensionsOf(LastOf(after, Extensions))));
      F.Oidc(Trim(url), clientId, clientSecret, Trim(OrEmpty(ScopeOf(LastOf(after, Scope)))),
             if read.Some? then read.value else map[])
    case SaslGcpIam =>
      F.Sasl.GcpIam(Trim(OrEmpty(PrincipalOf(LastOf(after, Principal)))),
                    Trim(OrEmpty(CredentialsFileOf(LastOf(after, CredentialsFile)))))
  }

  predicate SaslIsPossible(setters: seq<Setter>, i: nat, w: F.World)
    requires IsLastStart(setters, i)
  {
    var after := setters[i + 1..];
    match setters[i]
    case SaslPassword(_, username, password) => username != "" && password != ""
    case SaslAwsMskIam =>
      && (Trim(OrEmpty(SessionNameOf(LastOf(after, Role)))) != "" ==> Trim(OrEmpty(RoleArnOf(LastOf(after, Role)))) != "")
      && w.awsResolves
    case SaslOauthbearerOidc(url, clientId, clientSecret) =>
      && Trim(url) != "" && clientId != "" && clientSecret != ""
      && ListCodecs.ParseExtensions(ListCodecs.JoinExtensions(ExtensionsOf(LastOf(after, Extensions)))).Some?
      && w.tokenFetched
    case SaslGcpIam => w.gcpResolves
  }

  // -- The whole client ---------------------------------------------------------------------------------

  ghost predicate IsAskedFor(setters: seq<Setter>, x: F.Wiring) {
    && (x.tls.Some? <==> exists i :: 0 <= i < |setters| && AsksForTls(setters[i]))
    && (x.tls.Some? ==> AsksTls(setters, x.tls.value))
    && (x.sasl.Some? <==> exists i :: IsLastStart(setters, i))
    && (forall i :: IsLastStart(setters, i) ==> x.sasl == Some(AskedSasl(setters, i)))
  }

  ghost predicate IsPossible(setters: seq<Setter>, w: F.World) {
    && ((exists i :: 0 <= i < |setters| && AsksForTls(setters[i])) ==> TlsIsPossible(setters, w))
    && (forall i :: IsLastStart(setters, i) ==> SaslIsPossible(setters, i, w))
  }
}
