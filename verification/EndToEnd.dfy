/** From the host's setters through the printed document to the bridge's client. */
module EndToEnd {
  import opened Pairs
  import opened SecurityKeys
  import opened Options
  import opened SecurityComposition
  import opened SetterLaws
  import opened PrintedSetters
  import opened AskedFor
  import opened TypedSecurity
  import opened OptionTable
  import opened OptionAccounting
  import opened AdapterOptions
  import F = FranzSecurity
  import Json
  import ConfigJson
  import BridgeConfig

  lemma NoSecurityKeyIsPopped(k: SecurityKey, a: AdapterKey)
    ensures WireName(k) != AdapterName(a)
  {
    NamesHaveShapes(k);
    ShapeOfAdapterNames(a);
    SecurityShapesAvoid(k);
  }

  lemma SecurityShapesAvoid(k: SecurityKey)
    ensures Shape(k).0 !in {23, 28, 31, 33} || Shape(k).1 == 't'
  {
  }

  lemma SecurityKeysReachTheTable(config: map<string, string>, k: SecurityKey)
    ensures WireName(k) in config <==> WireName(k) in ForTheTable(config)
  {
    NoSecurityKeyIsPopped(k, LogLevel);
    NoSecurityKeyIsPopped(k, BailAfter);
    NoSecurityKeyIsPopped(k, LogInterval);
    NoSecurityKeyIsPopped(k, Backoff);
  }

  /** The security part of the bridge's map holds what the setters emitted. */
  lemma TheMapHoldsWhatWasEmitted(o: Settings, config: map<string, string>)
    requires Consistent(o) && NoStringSecurity(o) && AllCanonical(o.entries)
    requires config == LastWins(Named(Entries(o)))
    ensures Represents(FieldsIn(ForTheTable(config)), o)
    ensures HasSecurityKey(ForTheTable(config)) <==> o.tls || o.sasl.Some?
  {
    var rest, pairs := ForTheTable(config), Entries(o);
    SecurityKeysAreCanonical(o);
    CollectingGivesWhatWasEmitted(o, pairs);
    AliasIsNeverEmitted(o);
    StringPairsAreNotSecure(o, MechanismsAlias);
    NameInTheMap(o, config, MechanismsAlias);
    forall k: SecurityKey | !k.MechanismsAlias?
      ensures F.Get(FieldsIn(rest), k) == F.Stored(k, Emitted(o, k))
    {
      NameInTheMap(o, config, k);
      AllKeysAreListed(k);
      CollectedIsTheMap(pairs, k);
    }
    SecuritySeen(o, config);
  }

  lemma NameInTheMap(o: Settings, config: map<string, string>, k: SecurityKey)
    requires AllCanonical(Entries(o)) && config == LastWins(Named(Entries(o)))
    ensures WireName(k) in ForTheTable(config) <==> Secure(k) in LastWins(Entries(o))
    ensures Secure(k) in LastWins(Entries(o)) ==>
      ForTheTable(config)[WireName(k)] == LastWins(Entries(o))[Secure(k)]
  {
    KeyOfWireName(k);
    NamedKeepsValues(Entries(o), Secure(k));
    SecurityKeysReachTheTable(config, k);
  }

  lemma SecuritySeen(o: Settings, config: map<string, string>)
    requires Consistent(o) && NoStringSecurity(o) && AllCanonical(Entries(o))
    requires config == LastWins(Named(Entries(o)))
    ensures HasSecurityKey(ForTheTable(config)) <==> o.tls || o.sasl.Some?
  {
    if o.tls || o.sasl.Some? {
      KeysOfLastWins(SecurityPairs(o), Protocol);
      assert SecurityPairs(o)[0].0 == Protocol;
      StringPairsAreNotSecure(o, Protocol);
      NameInTheMap(o, config, Protocol);
      KeyOfWireName(Protocol);
      assert KeyFor(WireName(Protocol)).Secure?;
    }
    if name :| name in ForTheTable(config) && KeyFor(name).Secure? {
      var k := KeyFor(name).key;
      NamesAndKeysMatch(name, k);
      NameInTheMap(o, config, k);
      StringPairsAreNotSecure(o, k);
      KeysOfLastWins(SecurityPairs(o), k);
    }
  }

  /** The map the bridge reads out of the printed document. */
  lemma MapIsRead(c: ConfigJson.Inputs, tags: set<string>)
    requires BridgeConfig.EngineKnows(ConfigJson.DemuxSettings(c.demux), tags)
    requires c.topic != "" && c.brokers != "" && c.consumerGroup != ""
    ensures var read := BridgeConfig.ParseBridgeConfig(Json.Print(ConfigJson.Document(c)), tags);
      read.Ok? && read.value.kafkaConfig == LastWins(c.kafkaConfig)
  {
    BridgeConfig.ConfigurationSurvives(c, tags);
  }

  /** The whole way: for every chain of typed setters whose string pairs name no security key, and
      every other setting of the host the engine knows, the document the host prints is read by the bridge, and the
      bridge's security unit, fed with the keys it finds there, yields exactly the client the
      setters ask for or the first bad value among them. Under each security name the bridge reads
      what the chain emits, see PrintedSetters for the names one by one. */
  lemma SettersReachTheClient(setters: seq<Setter>, c: ConfigJson.Inputs, tags: set<string>, w: F.World)
    requires NoStringSecurity(Run(setters)) && c.kafkaConfig == Named(Entries(Run(setters)))
    requires BridgeConfig.EngineKnows(ConfigJson.DemuxSettings(c.demux), tags)
    requires c.topic != "" && c.brokers != "" && c.consumerGroup != ""
    ensures var read := BridgeConfig.ParseBridgeConfig(Json.Print(ConfigJson.Document(c)), tags);
      read.Ok? &&
      var rest := ForTheTable(read.value.kafkaConfig);
      var r := F.Build(FieldsIn(rest), HasSecurityKey(rest), w);
      && Prints(read.value.kafkaConfig, Run(setters))
      && r == Meant(Run(setters), w)
      && (r.Ok? <==> IsPossible(setters, w)) && (r.Ok? ==> IsAskedFor(setters, r.value))
  {
    MapIsRead(c, tags);
    EveryChainIsConsistent(setters);
    EveryEntryIsCanonical(setters);
    var o, config := Run(setters), LastWins(c.kafkaConfig);
    SecurityKeysAreCanonical(o);
    TheMapHoldsWhatWasEmitted(o, config);
    BuildAgrees(FieldsIn(ForTheTable(config)), o, w);
    MeantIsAskedFor(setters, w);
    PrintedMapPrints(setters);
  }
}
