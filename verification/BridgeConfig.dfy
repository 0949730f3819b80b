/** The bridge's reading of the configuration document, and the two sides put together. */
module BridgeConfig {
  import opened Common
  import opened Json
  import opened Pairs
  import opened ConfigJson

  /** bridgeConfig; a bandwidth interval that was not given is the empty string. The members of
      the demux object are handed on to the engine's own decoder once their names are known. */
  datatype BridgeConfig = BridgeConfig(
    adapter: string,
    brokers: string,
    topic: string,
    consumerGroup: string,
    kafkaConfig: map<string, string>,
    service: Option<Service>,
    demux: Members,
    bandwidth: Option<Bandwidth>)

  datatype Bandwidth = Bandwidth(statsInterval: string, flushInterval: string)

  datatype Code = InvalidJson | MissingConfig | BadOption

  const EMPTY := BridgeConfig("", "", "", "", map[], None, NoMore, None)

  /** A map of strings: a repeated key keeps its last value. */
  function ReadStrings(ms: Members, before: map<string, string>): Option<map<string, string>> {
    match ms
    case NoMore => Some(before)
    case Member(key, value, rest) =>
      match value
      case Str(text) => ReadStrings(rest, before[key := text])
      case _ => None
  }

  function ReadService(ms: Members, before: Service): Option<Service> {
    match ms
    case NoMore => Some(before)
    case Member(key, value, rest) =>
      if !value.Str? then None
      else if key == "name" then ReadService(rest, before.(name := value.text))
      else if key == "team" then ReadService(rest, before.(team := value.text))
      else None
  }

  function ReadBandwidth(ms: Members, before: Bandwidth): Option<Bandwidth> {
    match ms
    case NoMore => Some(before)
    case Member(key, value, rest) =>
      if !value.Str? then None
      else if key == "statsInterval" then ReadBandwidth(rest, before.(statsInterval := value.text))
      else if key == "flushInterval" then ReadBandwidth(rest, before.(flushInterval := value.text))
      else None
  }

  function ReadStringField(key: string, text: string, before: BridgeConfig): Option<BridgeConfig> {
    if key == "adapter" then Some(before.(adapter := text))
    else if key == "brokers" then Some(before.(brokers := text))
    else if key == "topic" then Some(before.(topic := text))
    else if key == "consumer_group" then Some(before.(consumerGroup := text))
    else None
  }

  function ReadObjectField(key: string, ms: Members, before: BridgeConfig): Option<BridgeConfig> {
    if key == "kafka_config" then
      match ReadStrings(ms, before.kafkaConfig)
      case None => None
      case Some(pairs) => Some(before.(kafkaConfig := pairs))
    else if key == "service" then
      match ReadService(ms, Service("", ""))
      case None => None
      case Some(s) => Some(before.(service := Some(s)))
    else if key == "demux" then Some(before.(demux := ms))
    else if key == "bandwidth" then
      match ReadBandwidth(ms, Bandwidth("", ""))
      case None => None
      case Some(b) => Some(before.(bandwidth := Some(b)))
    else None
  }

  /** Decoding with unknown fields disallowed. */
  function ReadFields(ms: Members, before: BridgeConfig): Option<BridgeConfig> {
    match ms
    case NoMore => Some(before)
    case Member(key, value, rest) =>
      var one := match value
        case Str(text) => ReadStringField(key, text, before)
        case Obj(inner) => ReadObjectField(key, inner, before)
        case Num(_) => None;
      match one
      case None => None
      case Some(after) => ReadFields(rest, after)
  }

  /** validateDemuxKeys: every member's name is a tag of the engine's configuration struct. */
  predicate KnownKeys(ms: Members, tags: set<string>) {
    match ms
    case NoMore => true
    case Member(key, _, rest) => key in tags && KnownKeys(rest, tags)
  }

  /** parseBridgeConfig; the tags are read off the engine's struct when the program runs. */
  function ParseBridgeConfig(text: string, tags: set<string>): Result<BridgeConfig, Code> {
    match Parse(text)
    case None => Err(InvalidJson)
    case Some(doc) =>
      if !doc.Obj? then Err(InvalidJson)
      else
        match ReadFields(doc.members, EMPTY)
        case None => Err(InvalidJson)
        case Some(c) =>
          if !KnownKeys(c.demux, tags) then Err(BadOption)
          else if c.topic == "" || c.brokers == "" || c.consumerGroup == "" then Err(MissingConfig)
          else if c.adapter != "" && c.adapter != "franz" then Err(BadOption)
          else Ok(c)
  }

  // -- The two sides together ------------------------------------------------------------------

  function IntervalText(ms: Option<nat>): string {
    match DurationSetting(ms)
    case None => ""
    case Some(j) => if j.Str? then j.text else ""
  }

  /** What the host meant. */
  function Meant(c: Inputs): BridgeConfig {
    BridgeConfig(
      "franz", c.brokers, c.topic, c.consumerGroup,
      LastWins(c.kafkaConfig), c.service, Present(DemuxSettings(c.demux)),
      if c.statsInterval.None? && c.flushInterval.None? then None
      else Some(Bandwidth(IntervalText(c.statsInterval), IntervalText(c.flushInterval))))
  }

  lemma {:induction false} StringsReadBack(pairs: seq<Pair>, before: map<string, string>)
    ensures ReadStrings(FromPairs(pairs), before) == Some(before + LastWins(pairs))
  {
    if pairs == [] {
      assert before + map[] == before;
    } else {
      StringsReadBack(pairs[1..], before[pairs[0].0 := pairs[0].1]);
      FirstPairIsOverridden(pairs, before);
    }
  }

  lemma FirstPairIsOverridden(pairs: seq<Pair>, before: map<string, string>)
    requires pairs != []
    ensures before[pairs[0].0 := pairs[0].1] + LastWins(pairs[1..]) == before + LastWins(pairs)
  {
    var first, others := [pairs[0]], LastWins(pairs[1..]);
    assert pairs == first + pairs[1..];
    LastWinsOfConcat(first, pairs[1..]);
    assert first[..0] == [];
    assert LastWins(first) == map[pairs[0].0 := pairs[0].1];
  }

  lemma BandwidthReadsBack(c: Inputs, before: BridgeConfig)
    requires before.bandwidth == None
    ensures ReadFields(BandwidthPart(c), before) == Some(before.(bandwidth := Meant(c).bandwidth))
  {
    NoIntervals(c);
    IntervalsReadBack(c, StatsSetting(c), FlushSetting(c));
  }

  lemma IntervalsReadBack(c: Inputs, s1: Setting, s2: Setting)
    requires s1 == StatsSetting(c) && s2 == FlushSetting(c)
    ensures ReadBandwidth(Present([s1, s2]), Bandwidth("", ""))
         == Some(Bandwidth(IntervalText(c.statsInterval), IntervalText(c.flushInterval)))
  {
    PresentOfTwo(s1, s2);
    var tail := if s2.value.None? then NoMore else Member("flushInterval", s2.value.value, NoMore);
    var first := Bandwidth(IntervalText(c.statsInterval), "");
    assert ReadBandwidth(NoMore, first.(flushInterval := IntervalText(c.flushInterval)))
        == Some(first.(flushInterval := IntervalText(c.flushInterval)));
    assert ReadBandwidth(tail, first) == Some(first.(flushInterval := IntervalText(c.flushInterval)));
  }

  lemma DemuxReadsBack(c: Inputs, before: BridgeConfig)
    requires before.demux == NoMore && before.bandwidth == None
    ensures ReadFields(DemuxPart(c), before) ==
      Some(before.(demux := Meant(c).demux, bandwidth := Meant(c).bandwidth))
  {
    var ms := Present(DemuxSettings(c.demux));
    BandwidthReadsBack(c, before.(demux := ms));
    if ms.Member? {
      assert ReadObjectField("demux", ms, before) == Some(before.(demux := ms));
    }
  }

  lemma ServiceReadsBack(c: Inputs, before: BridgeConfig)
    requires before.service == None && before.demux == NoMore && before.bandwidth == None
    ensures ReadFields(ServicePart(c), before) ==
      Some(before.(service := c.service, demux := Meant(c).demux, bandwidth := Meant(c).bandwidth))
  {
    DemuxReadsBack(c, before.(service := c.service));
    if c.service.Some? {
      NameAndTeamReadBack(c.service.value);
    }
  }

  lemma NameAndTeamReadBack(s: Service)
    ensures ReadService(Member("name", Str(s.name), Member("team", Str(s.team), NoMore)), Service("", "")) == Some(s)
  {
    var named := Service(s.name, "");
    assert ReadService(NoMore, named.(team := s.team)) == Some(s);
    assert ReadService(Member("team", Str(s.team), NoMore), named) == Some(s);
  }

  lemma KafkaConfigReadsBack(c: Inputs, before: BridgeConfig)
    requires before.kafkaConfig == map[] && before.service == None && before.demux == NoMore && before.bandwidth == None
    ensures ReadFields(KafkaPart(c), before) ==
      Some(before.(kafkaConfig := LastWins(c.kafkaConfig), service := c.service, demux := Meant(c).demux,
                   bandwidth := Meant(c).bandwidth))
  {
    var pairs := Deduped(c.kafkaConfig);
    DedupedMeansTheSame(c.kafkaConfig);
    StringsReadBack(pairs, map[]);
    assert map[] + LastWins(pairs) == LastWins(c.kafkaConfig);
    ServiceReadsBack(c, before.(kafkaConfig := LastWins(c.kafkaConfig)));
    if pairs != [] {
      assert ReadObjectField("kafka_config", FromPairs(pairs), before) ==
        Some(before.(kafkaConfig := LastWins(c.kafkaConfig)));
    }
  }

  lemma FieldsReadBack(c: Inputs)
    ensures ReadFields(Document(c).members, EMPTY) == Some(Meant(c))
  {
    var kafka := KafkaPart(c);
    var before := EMPTY.(adapter := "franz", brokers := c.brokers, topic := c.topic, consumerGroup := c.consumerGroup);
    KafkaConfigReadsBack(c, before);
    var group := Member("consumer_group", Str(c.consumerGroup), kafka);
    var topic := Member("topic", Str(c.topic), group);
    var brokers := Member("brokers", Str(c.brokers), topic);
    ReadStringStep("consumer_group", c.consumerGroup, kafka, before.(consumerGroup := ""), before);
    ReadStringStep("topic", c.topic, group, before.(consumerGroup := "", topic := ""), before.(consumerGroup := ""));
    ReadStringStep("brokers", c.brokers, topic, EMPTY.(adapter := "franz"), before.(consumerGroup := "", topic := ""));
    ReadStringStep("adapter", "franz", brokers, EMPTY, EMPTY.(adapter := "franz"));
  }

  lemma ReadStringStep(key: string, text: string, rest: Members, before: BridgeConfig, after: BridgeConfig)
    requires ReadStringField(key, text, before) == Some(after)
    ensures ReadFields(Member(key, Str(text), rest), before) == ReadFields(rest, after)
  {
  }

  /** The settings the host has set all have names the engine knows. */
  predicate EngineKnows(settings: seq<Setting>, tags: set<string>) {
    forall i :: 0 <= i < |settings| && settings[i].value.Some? ==> settings[i].name in tags
  }

  lemma {:induction false} PresentKeysAreTheNames(settings: seq<Setting>, tags: set<string>)
    ensures KnownKeys(Present(settings), tags) <==> EngineKnows(settings, tags)
  {
    if settings != [] {
      var rest := settings[1..];
      PresentKeysAreTheNames(rest, tags);
      assert forall i :: 0 < i < |settings| ==> settings[i] == rest[i - 1];
      assert settings[0].value.Some? && EngineKnows(settings, tags) ==> settings[0].name in tags;
      assert EngineKnows(settings, tags) ==> EngineKnows(rest, tags);
    }
  }

  /** What the host configured is what the bridge reads: for all strings, settings and option
      pairs, the printed document decodes to the inputs, with the pairs as the map in which the
      last value of each key wins. The only refusals are of a demux setting whose name the
      engine's struct does not have, and of an empty broker list, topic or group. */
  lemma ConfigurationSurvives(c: Inputs, tags: set<string>)
    ensures ParseBridgeConfig(Print(Document(c)), tags) ==
      if !EngineKnows(DemuxSettings(c.demux), tags) then Err(BadOption)
      else if c.topic == "" || c.brokers == "" || c.consumerGroup == "" then Err(MissingConfig)
      else Ok(Meant(c))
  {
    PrintThenParse(Document(c));
    FieldsReadBack(c);
    PresentKeysAreTheNames(DemuxSettings(c.demux), tags);
  }

  /** The printed document holds no NUL, so the host's check for one never fires. */
  lemma NoInteriorNul(c: Inputs)
    ensures NoControls(Print(Document(c))) && 0 as char !in Print(Document(c))
  {
    PrintHasNoControls(Document(c));
  }

  // -- What any document must be ---------------------------------------------------------------

  predicate HasKey(ms: Members, key: string) {
    ms.Member? && (ms.key == key || HasKey(ms.rest, key))
  }

  /** Every member of an object is looked at, and nothing else. */
  lemma {:induction false} MembersAreSearchedExactly(pairs: seq<Pair>, key: string)
    ensures HasKey(FromPairs(pairs), key) <==> exists i :: 0 <= i < |pairs| && pairs[i].0 == key
  {
    if pairs != [] {
      MembersAreSearchedExactly(pairs[1..], key);
      assert forall i :: 1 <= i < |pairs| ==> pairs[i] == pairs[1..][i - 1];
      assert forall i :: 0 <= i < |pairs| - 1 ==> pairs[1..][i] == pairs[i + 1];
    }
  }

  predicate IsField(key: string) {
    || key == "adapter" || key == "brokers" || key == "topic" || key == "consumer_group"
    || key == "kafka_config" || key == "service" || key == "demux" || key == "bandwidth"
  }

  lemma {:induction false} UnknownFieldsAreRefused(ms: Members, before: BridgeConfig, key: string)
    requires HasKey(ms, key) && !IsField(key)
    ensures ReadFields(ms, before) == None
  {
    var one := match ms.value
      case Str(text) => ReadStringField(ms.key, text, before)
      case Obj(inner) => ReadObjectField(ms.key, inner, before)
      case Num(_) => None;
    if ms.key != key && one.Some? { UnknownFieldsAreRefused(ms.rest, one.value, key); }
  }

  lemma {:induction false} UnknownServiceFieldsAreRefused(ms: Members, before: Service, key: string)
    requires HasKey(ms, key) && key != "name" && key != "team"
    ensures ReadService(ms, before) == None
  {
    if ms.key != key && ms.value.Str? {
      UnknownServiceFieldsAreRefused(ms.rest, before.(name := ms.value.text), key);
      UnknownServiceFieldsAreRefused(ms.rest, before.(team := ms.value.text), key);
    }
  }

  lemma {:induction false} UnknownIntervalsAreRefused(ms: Members, before: Bandwidth, key: string)
    requires HasKey(ms, key) && key != "statsInterval" && key != "flushInterval"
    ensures ReadBandwidth(ms, before) == None
  {
    if ms.key != key && ms.value.Str? {
      UnknownIntervalsAreRefused(ms.rest, before.(statsInterval := ms.value.text), key);
      UnknownIntervalsAreRefused(ms.rest, before.(flushInterval := ms.value.text), key);
    }
  }

  lemma {:induction false} KnownKeysAreTags(ms: Members, tags: set<string>, key: string)
    requires KnownKeys(ms, tags) && HasKey(ms, key)
    ensures key in tags
  {
    if ms.key != key { KnownKeysAreTags(ms.rest, tags, key); }
  }

  /** Whatever text is accepted is an object with no unknown field, every demux setting of it has a
      name the engine knows, its broker list, topic and group are not empty, and its adapter is
      the one there is, or left out. */
  lemma AcceptedConfigsAreSound(text: string, tags: set<string>, key: string)
    requires ParseBridgeConfig(text, tags).Ok?
    ensures var c := ParseBridgeConfig(text, tags).value;
      && c.brokers != "" && c.topic != "" && c.consumerGroup != "" && (c.adapter == "" || c.adapter == "franz")
      && (HasKey(c.demux, key) ==> key in tags)
    ensures Parse(text).Some? && Parse(text).value.Obj?
    ensures HasKey(Parse(text).value.members, key) ==> IsField(key)
  {
    var ms := Parse(text).value.members;
    if HasKey(ms, key) && !IsField(key) { UnknownFieldsAreRefused(ms, EMPTY, key); }
    var c := ParseBridgeConfig(text, tags).value;
    if HasKey(c.demux, key) { KnownKeysAreTags(c.demux, tags, key); }
  }
}
