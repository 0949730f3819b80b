/** The configuration document the host prints and the bridge reads. */
module ConfigJson {
  import opened Common
  import opened Text
  import opened Json
  import opened Pairs

  // -- What the host configures -----------------------------------------------------------

  /** Engine settings; durations are whole milliseconds, already rounded up. */
  datatype DemuxConfig = DemuxConfig(
    concurrentKeys: Option<nat>,
    perKeyBufferLen: Option<nat>,
    commitIngestChannelLen: Option<nat>,
    commitPartitionSliceLen: Option<nat>,
    workerShardsCount: Option<nat>,
    pollTimeout: Option<nat>,
    autoCommitInterval: Option<nat>,
    drainTimeout: Option<nat>,
    awaitAssignmentsTimeout: Option<nat>,
    queryTimeout: Option<nat>,
    acquireWorkerTimeoutCircuitBreaker: Option<nat>,
    rebalancePausePollingTimeout: Option<nat>,
    acquireCommitGuardTimeout: Option<nat>)

  datatype Service = Service(name: string, team: string)

  datatype Inputs = Inputs(
    topic: string,
    brokers: string,
    consumerGroup: string,
    kafkaConfig: seq<Pair>,
    demux: DemuxConfig,
    service: Option<Service>,
    statsInterval: Option<nat>,
    flushInterval: Option<nat>)

  // -- The document -------------------------------------------------------------------------

  function Millis(ms: nat): Json {
    Str(Decimal(ms) + "ms")
  }

  function IntSetting(v: Option<nat>): Option<Json> {
    if v.Some? then Some(Num(v.value)) else None
  }

  function DurationSetting(v: Option<nat>): Option<Json> {
    if v.Some? then Some(Millis(v.value)) else None
  }

  /** A name and the value it is set to, if it is. */
  datatype Setting = Setting(name: string, value: Option<Json>)

  function IntSettings(d: DemuxConfig): seq<Setting> {
    [Setting("concurrentKeys", IntSetting(d.concurrentKeys)),
     Setting("perKeyBufferLen", IntSetting(d.perKeyBufferLen)),
     Setting("commitIngestChannelLen", IntSetting(d.commitIngestChannelLen)),
     Setting("commitPartitionSliceLen", IntSetting(d.commitPartitionSliceLen)),
     Setting("workerShardsCount", IntSetting(d.workerShardsCount))]
  }

  function TimingSettings(d: DemuxConfig): seq<Setting> {
    [Setting("pollTimeout", DurationSetting(d.pollTimeout)),
     Setting("autoCommitInterval", DurationSetting(d.autoCommitInterval)),
     Setting("drainTimeout", DurationSetting(d.drainTimeout)),
     Setting("awaitAssignmentsTimeout", DurationSetting(d.awaitAssignmentsTimeout)),
     Setting("queryTimeout", DurationSetting(d.queryTimeout))]
  }

  function GuardSettings(d: DemuxConfig): seq<Setting> {
    [Setting("acquireWorkerTimeoutCircuitBreaker", DurationSetting(d.acquireWorkerTimeoutCircuitBreaker)),
     Setting("rebalancePausePollingTimeout", DurationSetting(d.rebalancePausePollingTimeout)),
     Setting("acquireCommitGuardTimeout", DurationSetting(d.acquireCommitGuardTimeout))]
  }

  function DemuxSettings(d: DemuxConfig): seq<Setting> {
    IntSettings(d) + TimingSettings(d) + GuardSettings(d)
  }

  /** The settings that are set, as members. */
  function Present(settings: seq<Setting>): Members {
    if settings == [] then NoMore
    else if settings[0].value.None? then Present(settings[1..])
    else Member(settings[0].name, settings[0].value.value, Present(settings[1..]))
  }

  function FromPairs(pairs: seq<Pair>): Members {
    if pairs == [] then NoMore else Member(pairs[0].0, Str(pairs[0].1), FromPairs(pairs[1..]))
  }

  function Document(c: Inputs): Json {
    Obj(Member("adapter", Str("franz"),
        Member("brokers", Str(c.brokers),
        Member("topic", Str(c.topic),
        Member("consumer_group", Str(c.consumerGroup), KafkaPart(c))))))
  }

  function KafkaPart(c: Inputs): Members {
    var pairs := Deduped(c.kafkaConfig);
    if pairs == [] then ServicePart(c) else Member("kafka_config", Obj(FromPairs(pairs)), ServicePart(c))
  }

  function ServicePart(c: Inputs): Members {
    match c.service
    case None => DemuxPart(c)
    case Some(s) =>
      Member("service", Obj(Member("name", Str(s.name), Member("team", Str(s.team), NoMore))), DemuxPart(c))
  }

  function DemuxPart(c: Inputs): Members {
    var ms := Present(DemuxSettings(c.demux));
    if ms.NoMore? then BandwidthPart(c) else Member("demux", Obj(ms), BandwidthPart(c))
  }

  function StatsSetting(c: Inputs): Setting {
    Setting("statsInterval", DurationSetting(c.statsInterval))
  }

  function FlushSetting(c: Inputs): Setting {
    Setting("flushInterval", DurationSetting(c.flushInterval))
  }

  function Intervals(c: Inputs): Members {
    Present([StatsSetting(c), FlushSetting(c)])
  }

  function BandwidthPart(c: Inputs): Members {
    var ms := Intervals(c);
    if ms.NoMore? then NoMore else Member("bandwidth", Obj(ms), NoMore)
  }

  // -- Printing it into a buffer --------------------------------------------------------------

  /** Text that needs no escapes, as the literal field names do not. */
  predicate Plain(s: string) {
    forall i :: 0 <= i < |s| ==> s[i] >= ' ' && s[i] != '"' && s[i] != '\\'
  }

  lemma {:induction false} PlainEscapesToItself(s: string)
    requires Plain(s)
    ensures Escape(s) == s
  {
    if s != [] {
      PlainEscapesToItself(s[1..]);
      assert s == [s[0]] + s[1..];
    }
  }

  function FieldOf(key: string, value: string): string {
    Quote(key) + ([':'] + Quote(value))
  }

  /** The growing String. */
  class JsonBuffer {
    var text: string

    constructor ()
      ensures text == []
    {
      text := [];
    }

    method Push(c: char)
      modifies this
      ensures text == old(text) + [c]
    {
      text := text + [c];
    }

    method PushStr(s: string)
      modifies this
      ensures text == old(text) + s
    {
      text := text + s;
    }

    /** json_escape_into. */
    method EscapeInto(s: string)
      modifies this
      ensures text == old(text) + Escape(s)
    {
      for i := 0 to |s|
        invariant text + Escape(s[i..]) == old(text) + Escape(s)
      {
        var c := s[i];
        ghost var others := Escape(s[i + 1..]);
        assert s[i..][1..] == s[i + 1..];
        assert text + (EscapeChar(c) + others) == text + EscapeChar(c) + others;
        if c == '"' {
          PushStr("\\\"");
        } else if c == '\\' {
          PushStr("\\\\");
        } else if c == '\n' {
          PushStr("\\n");
        } else if c == '\r' {
          PushStr("\\r");
        } else if c == '\t' {
          PushStr("\\t");
        } else if c < ' ' {
          PushStr("\\u" + Hex(c as nat, 4));
        } else {
          Push(c);
        }
      }
    }

    /** push_string_field. */
    method PushStringField(key: string, value: string)
      modifies this
      ensures text == old(text) + FieldOf(key, value)
    {
      Push('"');
      EscapeInto(key);
      PushStr("\":\"");
      EscapeInto(value);
      Push('"');
      FieldText(old(text), Escape(key), Escape(value));
    }
  }

  lemma FieldText(before: string, key: string, value: string)
    ensures before + ['"'] + key + "\":\"" + value + ['"']
         == before + ((['"'] + (key + ['"'])) + ([':'] + (['"'] + (value + ['"']))))
  {
    assert "\":\"" == ['"'] + [':'] + ['"'];
  }

  // -- The demux object -----------------------------------------------------------------------

  function PrintSetting(name: string, value: Json): string {
    Quote(name) + ([':'] + Print(value))
  }

  /** The texts of the settings that are set. */
  function Printed(settings: seq<Setting>): seq<string> {
    if settings == [] then []
    else if settings[0].value.None? then Printed(settings[1..])
    else [PrintSetting(settings[0].name, settings[0].value.value)] + Printed(settings[1..])
  }

  lemma {:induction false} PrintedOfConcat(a: seq<Setting>, b: seq<Setting>)
    ensures Printed(a + b) == Printed(a) + Printed(b)
  {
    if a == [] {
      assert a + b == b;
    } else {
      assert (a + b)[1..] == a[1..] + b;
      PrintedOfConcat(a[1..], b);
    }
  }

  lemma {:induction false} JoinPrintsMembers(settings: seq<Setting>)
    ensures Printed(settings) == [] <==> Present(settings).NoMore?
    ensures Join(Printed(settings), ',') == PrintMembers(Present(settings))
  {
    if settings != [] {
      JoinPrintsMembers(settings[1..]);
      if settings[0].value.Some? {
        var first, others := PrintSetting(settings[0].name, settings[0].value.value), Printed(settings[1..]);
        assert ([first] + others)[1..] == others;
        JoinStep(settings[0].name, settings[0].value.value, Present(settings[1..]), Join(others, ','));
      }
    }
  }

  lemma JoinStep(name: string, value: Json, others: Members, joined: string)
    requires joined == PrintMembers(others)
    ensures PrintMembers(Member(name, value, others)) ==
      if others.NoMore? then PrintSetting(name, value) else PrintSetting(name, value) + [','] + joined
  {
    Regroup(Quote(name), [':'] + Print(value), PrintRest(others));
    Regroup([':'], Print(value), PrintRest(others));
    if others.NoMore? {
      assert Print(value) + [] == Print(value);
    } else {
      Regroup(PrintSetting(name, value), [','], joined);
    }
  }

  /** The names demux_json writes without escaping them need no escapes. */
  predicate AllPlain(settings: seq<Setting>) {
    forall i :: 0 <= i < |settings| ==> Plain(settings[i].name)
  }

  lemma LengthNamesArePlain()
    ensures Plain("perKeyBufferLen") && Plain("commitIngestChannelLen") && Plain("commitPartitionSliceLen")
  {
  }

  lemma CountNamesArePlain()
    ensures Plain("concurrentKeys") && Plain("workerShardsCount")
  {
  }

  lemma TimeoutNamesArePlain()
    ensures Plain("pollTimeout") && Plain("drainTimeout") && Plain("queryTimeout")
  {
  }

  lemma WaitNamesArePlain()
    ensures Plain("autoCommitInterval") && Plain("awaitAssignmentsTimeout") && Plain("acquireCommitGuardTimeout")
  {
  }

  lemma LongNamesArePlain()
    ensures Plain("acquireWorkerTimeoutCircuitBreaker") && Plain("rebalancePausePollingTimeout")
  {
  }

  lemma DemuxNamesArePlain(d: DemuxConfig)
    ensures AllPlain(DemuxSettings(d))
  {
    LengthNamesArePlain();
    CountNamesArePlain();
    TimeoutNamesArePlain();
    WaitNamesArePlain();
    LongNamesArePlain();
  }

  /** The fields vector of demux_json, on its way to all the given settings. */
  class FieldList {
    var fields: seq<string>
    ghost const all: seq<Setting>
    ghost var done: nat

    ghost predicate Valid()
      reads this
    {
      AllPlain(all) && done <= |all| && fields == Printed(all[..done])
    }

    constructor (ghost settings: seq<Setting>)
      requires AllPlain(settings)
      ensures Valid() && all == settings && done == 0
    {
      fields, all, done := [], settings, 0;
    }

    method PushInt(name: string, v: Option<nat>)
      requires Valid() && done < |all| && all[done] == Setting(name, IntSetting(v))
      modifies this
      ensures Valid() && done == old(done) + 1
    {
      if v.Some? {
        PlainEscapesToItself(name);
        fields := fields + [['"'] + name + "\":" + Decimal(v.value)];
        assert ['"'] + name + "\":" + Decimal(v.value) == PrintSetting(name, Num(v.value));
      }
      PrintedOfNext(all, done);
      done := done + 1;
    }

    method PushDuration(name: string, v: Option<nat>)
      requires Valid() && done < |all| && all[done] == Setting(name, DurationSetting(v))
      modifies this
      ensures Valid() && done == old(done) + 1
    {
      if v.Some? {
        PlainEscapesToItself(name);
        MillisTextIsPlain(v.value);
        fields := fields + [['"'] + name + "\":\"" + (Decimal(v.value) + "ms") + ['"']];
        DurationText(name, Decimal(v.value) + "ms");
      }
      PrintedOfNext(all, done);
      done := done + 1;
    }

    method PushInts(d: DemuxConfig)
      requires Valid() && all == DemuxSettings(d) && done == 0
      modifies this
      ensures Valid() && done == 5
    {
      PushInt("concurrentKeys", d.concurrentKeys);
      PushInt("perKeyBufferLen", d.perKeyBufferLen);
      PushInt("commitIngestChannelLen", d.commitIngestChannelLen);
      PushInt("commitPartitionSliceLen", d.commitPartitionSliceLen);
      PushInt("workerShardsCount", d.workerShardsCount);
    }

    method PushDurations(d: DemuxConfig)
      requires Valid() && all == DemuxSettings(d) && done == 5
      modifies this
      ensures Valid() && done == |all|
    {
      PushDuration("pollTimeout", d.pollTimeout);
      PushDuration("autoCommitInterval", d.autoCommitInterval);
      PushDuration("drainTimeout", d.drainTimeout);
      PushDuration("awaitAssignmentsTimeout", d.awaitAssignmentsTimeout);
      PushDuration("queryTimeout", d.queryTimeout);
      PushDuration("acquireWorkerTimeoutCircuitBreaker", d.acquireWorkerTimeoutCircuitBreaker);
      PushDuration("rebalancePausePollingTimeout", d.rebalancePausePollingTimeout);
      PushDuration("acquireCommitGuardTimeout", d.acquireCommitGuardTimeout);
    }
  }

  lemma PrintedOfNext(settings: seq<Setting>, n: nat)
    requires n < |settings|
    ensures Printed(settings[..n + 1]) == Printed(settings[..n]) +
              (if settings[n].value.None? then [] else [PrintSetting(settings[n].name, settings[n].value.value)])
  {
    assert settings[..n + 1] == settings[..n] + [settings[n]];
    PrintedOfConcat(settings[..n], [settings[n]]);
  }

  lemma MillisTextIsPlain(ms: nat)
    ensures Escape(Decimal(ms) + "ms") == Decimal(ms) + "ms"
  {
    var d := Decimal(ms);
    forall i | 0 <= i < |d| + 2 ensures var ch := (d + "ms")[i]; ch >= ' ' && ch != '"' && ch != '\\' {
      if i < |d| { assert IsDigit(d[i]); }
    }
    PlainEscapesToItself(d + "ms");
  }

  lemma DurationText(name: string, value: string)
    requires Escape(name) == name && Escape(value) == value
    ensures ['"'] + name + "\":\"" + value + ['"'] == PrintSetting(name, Str(value))
  {
  }

  /** demux_json. */
  method DemuxJson(d: DemuxConfig) returns (r: Option<string>)
    ensures var ms := Present(DemuxSettings(d)); r == if ms.NoMore? then None else Some(Print(Obj(ms)))
  {
    DemuxNamesArePlain(d);
    var list := new FieldList(DemuxSettings(d));
    list.PushInts(d);
    list.PushDurations(d);
    assert list.all[..list.done] == list.all;
    JoinPrintsMembers(DemuxSettings(d));
    if list.fields == [] { return None; }
    return Some(['{'] + (Join(list.fields, ',') + ['}']));
  }

  // -- The whole document ---------------------------------------------------------------------

  /** The optional kafka_config object, printed from the deduplicated pairs. */
  method PushKafkaConfig(json: JsonBuffer, c: Inputs)
    modifies json
    ensures json.text + PrintRest(ServicePart(c)) == old(json.text) + PrintRest(KafkaPart(c))
  {
    var kafkaConfig := DedupeLoop(c.kafkaConfig);
    if kafkaConfig != [] {
      json.PushStr(",\"kafka_config\":{");
      ghost var start := json.text;
      for i := 0 to |kafkaConfig|
        invariant json.text + Unprinted(kafkaConfig, i) == start + PrintMembers(FromPairs(kafkaConfig))
      {
        UnprintedStep(kafkaConfig, i, json.text);
        if i > 0 {
          json.Push(',');
        }
        json.PushStringField(kafkaConfig[i].0, kafkaConfig[i].1);
      }
      assert kafkaConfig[|kafkaConfig|..] == [];
      assert json.text + [] == json.text;
      json.Push('}');
      KafkaConfigName();
      ObjectMember(old(json.text), "kafka_config", FromPairs(kafkaConfig), ServicePart(c));
    }
  }

  /** What the loop has still to print. */
  function Unprinted(pairs: seq<Pair>, i: nat): string
    requires i <= |pairs|
  {
    if i == 0 then PrintMembers(FromPairs(pairs)) else PrintRest(FromPairs(pairs[i..]))
  }

  lemma UnprintedStep(pairs: seq<Pair>, i: nat, before: string)
    requires i < |pairs|
    ensures var field := FieldOf(pairs[i].0, pairs[i].1);
      before + Unprinted(pairs, i) ==
      (if i > 0 then before + [','] else before) + field + Unprinted(pairs, i + 1)
  {
    var field, others := FieldOf(pairs[i].0, pairs[i].1), Unprinted(pairs, i + 1);
    assert pairs[i..][1..] == pairs[i + 1..];
    assert pairs[0..] == pairs;
    assert FromPairs(pairs[i..]) == Member(pairs[i].0, Str(pairs[i].1), FromPairs(pairs[i + 1..]));
    var here := PrintMembers(FromPairs(pairs[i..]));
    assert here == field + others by {
      assert Print(Str(pairs[i].1)) == Quote(pairs[i].1);
      assert others == PrintRest(FromPairs(pairs[i + 1..]));
      Regroup(Quote(pairs[i].0), [':'] + Quote(pairs[i].1), others);
      Regroup([':'], Quote(pairs[i].1), others);
    }
    if i > 0 {
      Regroup(before, [','], here);
      Regroup(before + [','], field, others);
    } else {
      Regroup(before, field, others);
    }
  }

  lemma KafkaConfigName()
    ensures Plain("kafka_config") && ",\"" + "kafka_config" + "\":{" == ",\"kafka_config\":{"
  {
  }

  /** The text of an object member that follows others. */
  lemma ObjectMember(before: string, name: string, ms: Members, others: Members)
    requires Plain(name)
    ensures before + (",\"" + name + "\":{") + PrintMembers(ms) + ['}'] + PrintRest(others)
         == before + PrintRest(Member(name, Obj(ms), others))
  {
    PlainEscapesToItself(name);
    ObjectMemberText(before, name, PrintMembers(ms), PrintRest(others));
    var value := Print(Obj(ms));
    assert value == ['{'] + (PrintMembers(ms) + ['}']);
    assert PrintMembers(Member(name, Obj(ms), others)) == Quote(name) + ([':'] + (value + PrintRest(others)));
  }

  lemma ObjectMemberText(before: string, name: string, inner: string, others: string)
    ensures before + (",\"" + name + "\":{") + inner + ['}'] + others
         == before + ([','] + ((['"'] + (name + ['"'])) + ([':'] + ((['{'] + (inner + ['}'])) + others))))
  {
    assert ",\"" == [','] + ['"'];
    assert "\":{" == ['"'] + [':'] + ['{'];
  }

  method PushService(json: JsonBuffer, c: Inputs)
    modifies json
    ensures json.text + PrintRest(DemuxPart(c)) == old(json.text) + PrintRest(ServicePart(c))
  {
    if c.service.Some? {
      json.PushStr(",\"service\":{");
      json.PushStringField("name", c.service.value.name);
      json.Push(',');
      json.PushStringField("team", c.service.value.team);
      json.Push('}');
      ServiceName();
      TwoStrings("name", c.service.value.name, "team", c.service.value.team);
      ObjectMember(old(json.text), "service", Strings("name", c.service.value.name, "team", c.service.value.team), DemuxPart(c));
      Inside(old(json.text) + (",\"" + "service" + "\":{"), "name", c.service.value.name, "team", c.service.value.team);
    }
  }

  function Strings(k1: string, v1: string, k2: string, v2: string): Members {
    Member(k1, Str(v1), Member(k2, Str(v2), NoMore))
  }

  lemma TwoStrings(k1: string, v1: string, k2: string, v2: string)
    ensures PrintMembers(Strings(k1, v1, k2, v2)) ==
      FieldOf(k1, v1) + [','] + FieldOf(k2, v2)
  {
    var last := Member(k2, Str(v2), NoMore);
    assert Print(Str(v1)) == Quote(v1) && Print(Str(v2)) == Quote(v2);
    assert PrintMembers(last) == Quote(k2) + ([':'] + (Quote(v2) + []));
    assert Quote(v2) + [] == Quote(v2);
    Regroup(Quote(k1), [':'] + Quote(v1), PrintRest(last));
    Regroup([':'], Quote(v1), PrintRest(last));
    Regroup(FieldOf(k1, v1), [','], PrintMembers(last));
  }

  lemma Inside(before: string, k1: string, v1: string, k2: string, v2: string)
    ensures before + FieldOf(k1, v1) + [','] + FieldOf(k2, v2)
         == before + PrintMembers(Strings(k1, v1, k2, v2))
  {
    TwoStrings(k1, v1, k2, v2);
    var a, b := FieldOf(k1, v1), FieldOf(k2, v2);
    Regroup(before, a, [',']);
    Regroup(before, a + [','], b);
  }

  lemma ServiceName()
    ensures Plain("service") && ",\"" + "service" + "\":{" == ",\"service\":{"
  {
  }

  method PushDemux(json: JsonBuffer, c: Inputs)
    modifies json
    ensures json.text + PrintRest(BandwidthPart(c)) == old(json.text) + PrintRest(DemuxPart(c))
  {
    var demux := DemuxJson(c.demux);
    if demux.Some? {
      json.PushStr(",\"demux\":");
      json.PushStr(demux.value);
      DemuxName();
      DemuxText(old(json.text), Present(DemuxSettings(c.demux)), BandwidthPart(c));
    }
  }

  lemma DemuxName()
    ensures Plain("demux") && ",\"" + "demux" + "\":{" == ",\"demux\":" + ['{']
  {
  }

  lemma DemuxText(before: string, ms: Members, others: Members)
    requires Plain("demux") && ",\"" + "demux" + "\":{" == ",\"demux\":" + ['{']
    ensures before + ",\"demux\":" + Print(Obj(ms)) + PrintRest(others)
         == before + PrintRest(Member("demux", Obj(ms), others))
  {
    ObjectMember(before, "demux", ms, others);
    Braced(before, ",\"demux\":", PrintMembers(ms));
  }

  lemma Braced(before: string, name: string, inner: string)
    ensures before + name + (['{'] + (inner + ['}'])) == before + (name + ['{']) + inner + ['}']
  {
  }

  method PushBandwidth(json: JsonBuffer, c: Inputs)
    modifies json
    ensures json.text == old(json.text) + PrintRest(BandwidthPart(c))
  {
    NoIntervals(c);
    assert old(json.text) + [] == old(json.text);
    if c.statsInterval.Some? || c.flushInterval.Some? {
      json.PushStr(",\"bandwidth\":{");
      PushIntervals(json, c);
      json.Push('}');
      BandwidthName();
      ObjectMember(old(json.text), "bandwidth", Intervals(c), NoMore);
      assert json.text + [] == json.text;
    }
  }

  lemma PresentOfTwo(s1: Setting, s2: Setting)
    ensures Present([s1, s2]) ==
      var tail := if s2.value.None? then NoMore else Member(s2.name, s2.value.value, NoMore);
      if s1.value.None? then tail else Member(s1.name, s1.value.value, tail)
  {
    assert [s1, s2][1..] == [s2] && [s2][1..] == [];
    assert Present([s2]) == if s2.value.None? then NoMore else Member(s2.name, s2.value.value, NoMore);
  }

  lemma NoIntervals(c: Inputs)
    ensures Intervals(c).NoMore? <==> c.statsInterval.None? && c.flushInterval.None?
  {
    PresentOfTwo(StatsSetting(c), FlushSetting(c));
  }

  /** The members of the bandwidth object, a comma only between the two. */
  method PushIntervals(json: JsonBuffer, c: Inputs)
    modifies json
    ensures json.text == old(json.text) + PrintMembers(Intervals(c))
  {
    ghost var stats, flush := StatsSetting(c), FlushSetting(c);
    IntervalPrefixes(c, stats, flush);
    var first := true;
    if c.statsInterval.Some? {
      PushInterval(json, "\"statsInterval\":\"", stats, c.statsInterval.value);
      first := false;
    }
    if c.flushInterval.Some? {
      if !first {
        json.Push(',');
      }
      PushInterval(json, "\"flushInterval\":\"", flush, c.flushInterval.value);
    }
    TwoSettings(old(json.text), stats, flush);
  }

  predicate IsIntervalPrefix(prefix: string, name: string) {
    Plain(name) && prefix == ['"'] + name + "\":\""
  }

  lemma IntervalPrefixes(c: Inputs, stats: Setting, flush: Setting)
    requires stats == StatsSetting(c) && flush == FlushSetting(c)
    ensures IsIntervalPrefix("\"statsInterval\":\"", stats.name)
    ensures IsIntervalPrefix("\"flushInterval\":\"", flush.name)
  {
  }

  method PushInterval(json: JsonBuffer, prefix: string, ghost s: Setting, ms: nat)
    requires IsIntervalPrefix(prefix, s.name) && s.value == Some(Millis(ms))
    modifies json
    ensures json.text == old(json.text) + PrintSetting(s.name, s.value.value)
  {
    json.PushStr(prefix + (Decimal(ms) + "ms") + ['"']);
    IntervalText(prefix, s.name, ms);
  }

  lemma IntervalText(prefix: string, name: string, ms: nat)
    requires Plain(name) && prefix == ['"'] + name + "\":\""
    ensures prefix + (Decimal(ms) + "ms") + ['"'] == PrintSetting(name, Millis(ms))
  {
    PlainEscapesToItself(name);
    MillisTextIsPlain(ms);
    DurationText(name, Decimal(ms) + "ms");
  }

  lemma BandwidthName()
    ensures Plain("bandwidth") && ",\"" + "bandwidth" + "\":{" == ",\"bandwidth\":{"
  {
  }

  /** What stands between the braces of an object with at most two settings. */
  lemma TwoSettings(start: string, s1: Setting, s2: Setting)
    ensures var ms := Present([s1, s2]);
      start + PrintMembers(ms) ==
        if s1.value.None? && s2.value.None? then start
        else if s1.value.None? then start + PrintSetting(s2.name, s2.value.value)
        else if s2.value.None? then start + PrintSetting(s1.name, s1.value.value)
        else start + PrintSetting(s1.name, s1.value.value) + [','] + PrintSetting(s2.name, s2.value.value)
  {
    PresentOfTwo(s1, s2);
    var tail := if s2.value.None? then NoMore else Member(s2.name, s2.value.value, NoMore);
    if s2.value.Some? { JoinStep(s2.name, s2.value.value, NoMore, []); }
    if s1.value.Some? { JoinStep(s1.name, s1.value.value, tail, PrintMembers(tail)); }
    if s1.value.Some? && s2.value.Some? {
      var p1, p2 := PrintSetting(s1.name, s1.value.value), PrintSetting(s2.name, s2.value.value);
      Regroup(start, p1, [',']);
      Regroup(start, p1 + [','], p2);
    }
    assert start + [] == start;
  }

  /** The four members every document has. */
  method PushHead(json: JsonBuffer, c: Inputs)
    requires json.text == ['{']
    modifies json
    ensures json.text + PrintRest(KafkaPart(c)) + ['}'] == Print(Document(c))
  {
    json.PushStringField("adapter", "franz");
    json.Push(',');
    json.PushStringField("brokers", c.brokers);
    json.Push(',');
    json.PushStringField("topic", c.topic);
    json.Push(',');
    json.PushStringField("consumer_group", c.consumerGroup);
    FourStrings("adapter", "franz", "brokers", c.brokers, "topic", c.topic, "consumer_group", c.consumerGroup,
      KafkaPart(c));
  }

  /** config_json: the printed text is the document's. */
  method ConfigJsonText(c: Inputs) returns (text: string)
    ensures text == Print(Document(c))
  {
    var json := new JsonBuffer();
    json.Push('{');
    PushHead(json, c);
    PushKafkaConfig(json, c);
    assert json.text + PrintRest(ServicePart(c)) + ['}'] == Print(Document(c));
    PushService(json, c);
    assert json.text + PrintRest(DemuxPart(c)) + ['}'] == Print(Document(c));
    PushDemux(json, c);
    assert json.text + PrintRest(BandwidthPart(c)) + ['}'] == Print(Document(c));
    PushBandwidth(json, c);
    json.Push('}');
    text := json.text;
  }

  /** A string member that comes first, before others. */
  lemma StringMember(before: string, key: string, value: string, others: Members)
    ensures before + FieldOf(key, value) + PrintRest(others)
         == before + PrintMembers(Member(key, Str(value), others))
  {
    assert Print(Str(value)) == Quote(value);
    assert PrintMembers(Member(key, Str(value), others)) == Quote(key) + ([':'] + (Quote(value) + PrintRest(others)));
    var field := Quote(key) + ([':'] + Quote(value));
    Regroup(Quote(key), [':'] + Quote(value), PrintRest(others));
    Regroup([':'], Quote(value), PrintRest(others));
    Regroup(before, field, PrintRest(others));
  }

  /** Four string members in a row, before others. */
  lemma FourStrings(k1: string, v1: string, k2: string, v2: string,
                    k3: string, v3: string, k4: string, v4: string, others: Members)
    ensures var ms := Member(k1, Str(v1), Member(k2, Str(v2), Member(k3, Str(v3), Member(k4, Str(v4), others))));
      ['{'] + FieldOf(k1, v1) + [','] + FieldOf(k2, v2) + [','] + FieldOf(k3, v3) + [','] + FieldOf(k4, v4)
        + PrintRest(others) + ['}'] == Print(Obj(ms))
  {
    var m4 := Member(k4, Str(v4), others);
    var m3 := Member(k3, Str(v3), m4);
    var m2 := Member(k2, Str(v2), m3);
    var m1 := Member(k1, Str(v1), m2);
    var t1 := ['{'] + FieldOf(k1, v1);
    var t2 := t1 + [','] + FieldOf(k2, v2);
    var t3 := t2 + [','] + FieldOf(k3, v3);
    StringMemberAfter(t3, k4, v4, others);
    StringMemberAfter(t2, k3, v3, m4);
    StringMemberAfter(t1, k2, v2, m3);
    StringMember(['{'], k1, v1, m2);
    Regroup(['{'], PrintMembers(m1), ['}']);
  }

  lemma StringMemberAfter(before: string, key: string, value: string, others: Members)
    ensures before + [','] + FieldOf(key, value) + PrintRest(others)
         == before + PrintRest(Member(key, Str(value), others))
  {
    var m := Member(key, Str(value), others);
    StringMember(before + [','], key, value, others);
    Regroup(before, [','], PrintMembers(m));
  }
}
