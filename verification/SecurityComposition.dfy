/** The host's typed security setters against the bridge's validator. */
module SecurityComposition {
  import opened Common
  import opened Text
  import opened Pairs
  import opened SecurityKeys
  import opened Options
  import F = FranzSecurity
  import ListCodecs

  // -- Each typed key keeps the value of its last typed setter ----------------------------------------

  /** The value the last setter in the chain that writes an ssl key gave it. */
  function LastSetValue(setters: seq<Setter>, k: SecurityKey): Option<string> {
    if setters == [] then None
    else
      var written := LastWins(SslPairs(setters[|setters| - 1]));
      if k in written then Some(written[k]) else LastSetValue(setters[..|setters| - 1], k)
  }

  lemma {:induction false} LastSslSetterWins(setters: seq<Setter>, k: SecurityKey)
    ensures var m := LastWins(Run(setters).ssl);
      LastSetValue(setters, k) == if k in m then Some(m[k]) else None
  {
    if setters != [] {
      var front, last := setters[..|setters| - 1], setters[|setters| - 1];
      LastSslSetterWins(front, k);
      LastWinsOfConcat(Run(front).ssl, SslPairs(last));
    }
  }

  lemma {:induction false} TaggedKeepsValues(pairs: seq<(SecurityKey, string)>, key: Key)
    ensures key in LastWins(Tagged(pairs)) <==> key.Secure? && key.key in LastWins(pairs)
    ensures key in LastWins(Tagged(pairs)) ==> LastWins(Tagged(pairs))[key] == LastWins(pairs)[key.key]
  {
    if pairs != [] {
      var front := pairs[..|pairs| - 1];
      assert Tagged(pairs)[..|pairs| - 1] == Tagged(front);
      TaggedKeepsValues(front, key);
    }
  }

  /** If the builder validates, every security key it emits has exactly the value its typed setters
      gave it, no ordinary pair touches it, and every other key keeps its ordinary value. */
  lemma TypedKeysKeepTheirValues(o: Settings, key: Key)
    requires Unambiguous(o)
    ensures var m, typed, ordinary := LastWins(Entries(o)), LastWins(SecurityPairs(o)), LastWins(o.entries);
      if key.Secure? && key.key in typed
      then key !in ordinary && key in m && m[key] == typed[key.key]
      else (key in m <==> key in ordinary) && (key in m ==> m[key] == ordinary[key])
  {
    var typed := LastWins(SecurityPairs(o));
    LastWinsOfConcat(o.entries, Tagged(SecurityPairs(o)));
    TaggedKeepsValues(SecurityPairs(o), key);
    if key.Secure? && key.key in typed {
      KeysOfLastWins(SecurityPairs(o), key.key);
      var i :| 0 <= i < |SecurityPairs(o)| && SecurityPairs(o)[i].0 == key.key;
      EmittedKeysAreTyped(o, i);
      KeysOfLastWins(o.entries, key);
    }
  }

  // -- What the bridge has collected ----------------------------------------------------------------

  /** The fields after collecting the pairs one by one. */
  function CollectAll(pairs: seq<(Key, string)>): F.Fields {
    if pairs == [] then map[]
    else
      var before, last := CollectAll(pairs[..|pairs| - 1]), pairs[|pairs| - 1];
      match last.0
      case Other(_) => before
      case Secure(k) => F.Collected(before, k, last.1)
  }

  predicate SawKey(pairs: seq<(Key, string)>) {
    exists i :: 0 <= i < |pairs| && pairs[i].0.Secure?
  }

  /** The field of a key, read off the map alone. */
  function FieldIn(m: map<Key, string>, k: SecurityKey): string {
    if Secure(k) in m then F.Stored(k, m[Secure(k)]) else ""
  }

  /** Without the alias of the mechanism, the fields do not depend on the order of collection. */
  lemma {:induction false} CollectedIsTheMap(pairs: seq<(Key, string)>, k: SecurityKey)
    requires Secure(MechanismsAlias) !in LastWins(pairs) && !k.MechanismsAlias?
    ensures F.Get(CollectAll(pairs), k) == FieldIn(LastWins(pairs), k)
  {
    if pairs != [] {
      CollectedIsTheMap(pairs[..|pairs| - 1], k);
    }
  }

  lemma SawKeyIsTheMap(pairs: seq<(Key, string)>, k: SecurityKey)
    requires Secure(k) in LastWins(pairs)
    ensures SawKey(pairs)
  {
    KeysOfLastWins(pairs, Secure(k));
  }

  lemma {:induction false} NoSecureKeyNothingCollected(pairs: seq<(Key, string)>)
    requires forall k: SecurityKey :: Secure(k) !in LastWins(pairs)
    ensures !SawKey(pairs)
  {
    if i :| 0 <= i < |pairs| && pairs[i].0.Secure? {
      KeysOfLastWins(pairs, pairs[i].0);
    }
  }

  // -- The typed values, key by key ---------------------------------------------------------------

  /** No ordinary pair has a security key. */
  predicate NoStringSecurity(o: Settings) {
    forall i :: 0 <= i < |o.entries| ==> o.entries[i].0.Other?
  }

  /** What an option that may be unset holds; a setter of an unset option is never called. */
  function OrEmpty(v: Option<string>): string {
    if v.Some? then v.value else ""
  }

  /** The value a mechanism's setters give a key, if they give one. */
  function SaslEntry(sasl: HostSasl, k: SecurityKey): Option<string> {
    match sasl
    case UserPass(scheme, u, p) =>
      if k.Mechanism? then Some(MechanismText(scheme))
      else if k.Username? then Some(u)
      else if k.Password? then Some(p)
      else None
    case AwsMskIam(region, profile, arn, name) =>
      if k.Mechanism? then Some("AWS_MSK_IAM")
      else if k.AwsRegion? then region
      else if k.AwsProfile? then profile
      else if k.AwsRoleArn? then arn
      else if k.AwsRoleSessionName? then name
      else None
    case OauthbearerOidc(url, id, secret, scope, extensions) =>
      if k.Mechanism? then Some("OAUTHBEARER")
      else if k.OAuthTokenEndpoint? then Some(url)
      else if k.OAuthClientId? then Some(id)
      else if k.OAuthClientSecret? then Some(secret)
      else if k.OAuthScope? then scope
      else if k.OAuthExtensions? && extensions != [] then Some(ListCodecs.JoinExtensions(extensions))
      else None
    case GcpIam(principal, file) =>
      if k.Mechanism? then Some("OAUTHBEARER")
      else if k.OAuthMethod? then Some("gcp")
      else if k.GcpPrincipal? then principal
      else if k.GcpCredentialsFile? then file
      else None
  }

  function SaslValue(sasl: HostSasl, k: SecurityKey): string {
    OrEmpty(SaslEntry(sasl, k))
  }

  function ValueIn(m: map<SecurityKey, string>, k: SecurityKey): string {
    if k in m then m[k] else ""
  }

  lemma FoundInConcat(a: seq<(SecurityKey, string)>, b: seq<(SecurityKey, string)>, k: SecurityKey)
    ensures Found(LastWins(a + b), k) ==
      if Found(LastWins(b), k).Some? then Found(LastWins(b), k) else Found(LastWins(a), k)
  {
    LastWinsOfConcat(a, b);
  }

  lemma OnePair(key: SecurityKey, value: string, k: SecurityKey)
    ensures Found(LastWins([(key, value)]), k) == if k == key then Some(value) else None
  {
    assert [(key, value)][..0] == [];
  }

  lemma IfSetEntry(key: SecurityKey, value: Option<string>, k: SecurityKey)
    ensures Found(LastWins(IfSet(key, value)), k) == if k == key then value else None
  {
    if value.Some? { OnePair(key, value.value, k); }
  }

  lemma OptionalPair(before: seq<(SecurityKey, string)>, key: SecurityKey, value: Option<string>, k: SecurityKey)
    ensures Found(LastWins(before + IfSet(key, value)), k) ==
      if k == key && value.Some? then value else Found(LastWins(before), k)
  {
    FoundInConcat(before, IfSet(key, value), k);
    IfSetEntry(key, value, k);
  }

  lemma ThreePairs(a: (SecurityKey, string), b: (SecurityKey, string), c: (SecurityKey, string))
    ensures LastWins([a, b, c]) == map[a.0 := a.1][b.0 := b.1][c.0 := c.1]
    ensures LastWins([a, b]) == map[a.0 := a.1][b.0 := b.1]
  {
    assert [a, b, c][..2] == [a, b] && [a, b][..1] == [a] && [a][..0] == [];
    assert LastWins([a]) == map[a.0 := a.1];
  }

  lemma UserPassEntry(sasl: HostSasl, k: SecurityKey)
    requires sasl.UserPass?
    ensures Found(LastWins(SaslPairs(sasl)), k) == SaslEntry(sasl, k)
  {
    ThreePairs((Mechanism, MechanismText(sasl.scheme)), (Username, sasl.username), (Password, sasl.password));
  }

  lemma AwsEntry(sasl: HostSasl, k: SecurityKey)
    requires sasl.AwsMskIam?
    ensures Found(LastWins(SaslPairs(sasl)), k) == SaslEntry(sasl, k)
  {
    var p0 := [(Mechanism, "AWS_MSK_IAM")];
    var p1 := p0 + IfSet(AwsRegion, sasl.region);
    var p2 := p1 + IfSet(AwsProfile, sasl.profile);
    var p3 := p2 + IfSet(AwsRoleArn, sasl.roleArn);
    OnePair(Mechanism, "AWS_MSK_IAM", k);
    OptionalPair(p0, AwsRegion, sasl.region, k);
    OptionalPair(p1, AwsProfile, sasl.profile, k);
    OptionalPair(p2, AwsRoleArn, sasl.roleArn, k);
    OptionalPair(p3, AwsRoleSessionName, sasl.sessionName, k);
  }

  lemma FourPairs(a: (SecurityKey, string), b: (SecurityKey, string), c: (SecurityKey, string), d: (SecurityKey, string))
    ensures LastWins([a, b, c, d]) == map[a.0 := a.1][b.0 := b.1][c.0 := c.1][d.0 := d.1]
  {
    assert [a, b, c, d][..3] == [a, b, c];
    ThreePairs(a, b, c);
  }

  lemma OidcCoreEntry(mechanism: string, url: string, id: string, secret: string, k: SecurityKey)
    ensures var m := LastWins([(Mechanism, mechanism), (OAuthTokenEndpoint, url), (OAuthClientId, id), (OAuthClientSecret, secret)]);
      Found(m, k) == if k.Mechanism? then Some(mechanism)
                     else if k.OAuthTokenEndpoint? then Some(url)
                     else if k.OAuthClientId? then Some(id)
                     else if k.OAuthClientSecret? then Some(secret)
                     else None
  {
    FourPairs((Mechanism, mechanism), (OAuthTokenEndpoint, url), (OAuthClientId, id), (OAuthClientSecret, secret));
  }

  lemma OidcEntry(sasl: HostSasl, k: SecurityKey)
    requires sasl.OauthbearerOidc?
    ensures Found(LastWins(SaslPairs(sasl)), k) == SaslEntry(sasl, k)
  {
    var joined := if sasl.extensions == [] then None else Some(ListCodecs.JoinExtensions(sasl.extensions));
    var p1 := [(Mechanism, "OAUTHBEARER"), (OAuthTokenEndpoint, sasl.endpoint), (OAuthClientId, sasl.clientId),
               (OAuthClientSecret, sasl.clientSecret)];
    var p2 := p1 + IfSet(OAuthScope, sasl.scope);
    assert SaslPairs(sasl) == p2 + IfSet(OAuthExtensions, joined);
    OidcCoreEntry("OAUTHBEARER", sasl.endpoint, sasl.clientId, sasl.clientSecret, k);
    OptionalPair(p1, OAuthScope, sasl.scope, k);
    OptionalPair(p2, OAuthExtensions, joined, k);
  }

  lemma GcpEntry(sasl: HostSasl, k: SecurityKey)
    requires sasl.GcpIam?
    ensures Found(LastWins(SaslPairs(sasl)), k) == SaslEntry(sasl, k)
  {
    var p0 := [(Mechanism, "OAUTHBEARER"), (OAuthMethod, "gcp")];
    var p1 := p0 + IfSet(GcpPrincipal, sasl.principal);
    ThreePairs(p0[0], p0[1], p0[1]);
    OptionalPair(p0, GcpPrincipal, sasl.principal, k);
    OptionalPair(p1, GcpCredentialsFile, sasl.credentialsFile, k);
  }

  lemma SaslPairsValue(sasl: HostSasl, k: SecurityKey)
    ensures Found(LastWins(SaslPairs(sasl)), k) == SaslEntry(sasl, k)
  {
    match sasl
    case UserPass(_, _, _) => UserPassEntry(sasl, k);
    case AwsMskIam(_, _, _, _) => AwsEntry(sasl, k);
    case OauthbearerOidc(_, _, _, _, _) => OidcEntry(sasl, k);
    case GcpIam(_, _) => GcpEntry(sasl, k);
  }

  /** The value emitted under a key, if there is one. */
  function EmittedEntry(o: Settings, k: SecurityKey): Option<string> {
    if !o.tls && o.sasl.None? then None
    else if k.Protocol? then Some(ProtocolName(o))
    else if IsSslKey(k) then Found(LastWins(o.ssl), k)
    else if o.sasl.Some? then SaslEntry(o.sasl.value, k)
    else None
  }

  /** The value emitted under a key, the empty string when there is none. */
  function Emitted(o: Settings, k: SecurityKey): string {
    OrEmpty(EmittedEntry(o, k))
  }

  lemma SaslPairKey(sasl: HostSasl, i: nat)
    requires i < |SaslPairs(sasl)|
    ensures var k := SaslPairs(sasl)[i].0; !k.Protocol? && !IsSslKey(k) && !k.MechanismsAlias?
  {
  }

  lemma SaslPairsAvoid(sasl: HostSasl, k: SecurityKey)
    requires k.Protocol? || IsSslKey(k) || k.MechanismsAlias?
    ensures k !in LastWins(SaslPairs(sasl))
  {
    KeysOfLastWins(SaslPairs(sasl), k);
    if i :| 0 <= i < |SaslPairs(sasl)| && SaslPairs(sasl)[i].0 == k {
      SaslPairKey(sasl, i);
    }
  }

  lemma SslPairsAvoid(o: Settings, k: SecurityKey)
    requires Consistent(o) && !IsSslKey(k)
    ensures k !in LastWins(o.ssl)
  {
    KeysOfLastWins(o.ssl, k);
    if i :| 0 <= i < |o.ssl| && o.ssl[i].0 == k { assert TypedSslPair(o.ssl[i]); }
  }

  lemma EntryIsInThePairs(o: Settings, k: SecurityKey)
    requires Consistent(o) && !k.MechanismsAlias?
    ensures Found(LastWins(SecurityPairs(o)), k) == EmittedEntry(o, k)
  {
    if o.tls || o.sasl.Some? {
      var head := [(Protocol, ProtocolName(o))];
      OnePair(Protocol, ProtocolName(o), k);
      FoundInConcat(head, o.ssl, k);
      if !IsSslKey(k) { SslPairsAvoid(o, k); }
      if o.sasl.Some? {
        FoundInConcat(head + o.ssl, SaslPairs(o.sasl.value), k);
        SaslPairsValue(o.sasl.value, k);
        if k.Protocol? || IsSslKey(k) { SaslPairsAvoid(o.sasl.value, k); }
      } else {
        assert SecurityPairs(o) == head + o.ssl;
      }
    }
  }

  lemma EmittedIsInThePairs(o: Settings, k: SecurityKey)
    requires Consistent(o) && !k.MechanismsAlias?
    ensures ValueIn(LastWins(SecurityPairs(o)), k) == Emitted(o, k)
  {
    EntryIsInThePairs(o, k);
  }

  lemma AliasIsNeverEmitted(o: Settings)
    requires Consistent(o)
    ensures MechanismsAlias !in LastWins(SecurityPairs(o))
  {
    var head := [(Protocol, ProtocolName(o))];
    if o.tls || o.sasl.Some? {
      OnePair(Protocol, ProtocolName(o), MechanismsAlias);
      assert MechanismsAlias !in LastWins(head);
      LastWinsOfConcat(head, o.ssl);
      SslPairsAvoid(o, MechanismsAlias);
      if o.sasl.Some? {
        LastWinsOfConcat(head + o.ssl, SaslPairs(o.sasl.value));
        SaslPairsAvoid(o.sasl.value, MechanismsAlias);
      } else {
        assert SecurityPairs(o) == head + o.ssl;
      }
    }
  }
}
