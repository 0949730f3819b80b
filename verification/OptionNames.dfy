/** The option table by the names of its keys: what each name, as the host spells it, sets. */
module OptionNames {
  import opened Common
  import opened Text
  import opened SecurityKeys
  import opened GoNumbers
  import opened OptionTable
  import opened OptionAccounting
  import ListCodecs
  import F = FranzSecurity

  // -- No two keys share a name ---------------------------------------------------------------------

  /** Length, ninth and first character of the name. */
  function Outline(k: ClientKey): (nat, char, char) {
    match k
    case AutoOffsetReset => (17, 's', 'a')
    case ClientId => (9, 'd', 'c')
    case SessionTimeout => (18, 't', 's')
    case HeartbeatInterval => (21, 't', 'h')
    case RebalanceTimeout => (20, 'e', 'r')
    case AssignmentStrategy => (29, 'n', 'p')
    case FetchMinBytes => (15, 'n', 'f')
    case FetchMaxBytes => (15, 'x', 'f')
    case MaxPartitionFetchBytes => (25, 'i', 'm')
    case FetchMaxWait => (17, 'x', 'f')
    case FetchWaitMax => (17, 'i', 'f')
    case GroupInstanceId => (17, 's', 'g')
    case ClientRack => (11, 'a', 'c')
    case MetadataMaxAge => (19, '.', 'm')
    case IsolationLevel => (15, 'n', 'i')
    case ConnectionSetupTimeout => (34, 'o', 's')
    case ConnectionsMaxIdle => (23, 'o', 'c')
    case RequestRetries => (22, 'e', 'l')
    case RetryTimeout => (23, 'e', 'l')
    case MaxConcurrentFetches => (29, 'a', 'l')
    case AllowAutoCreateTopics => (24, 't', 'a')
    case CheckCrcs => (10, 'c', 'c')
    case EnableMetricsPush => (19, 'e', 'e')
  }

  predicate HasOutline(k: ClientKey) {
    var name := ClientName(k);
    |name| == Outline(k).0 && Outline(k).0 > 8 && name[8] == Outline(k).1 && name[0] == Outline(k).2
  }

  /** The keys of fetching and of client identity, and the others. */
  predicate IsFetchOrIdentity(k: ClientKey) {
    || k.ClientId? || k.GroupInstanceId? || k.ClientRack? || k.FetchMinBytes? || k.FetchMaxBytes?
    || k.MaxPartitionFetchBytes? || k.FetchMaxWait? || k.FetchWaitMax? || k.MaxConcurrentFetches? || k.CheckCrcs?
    || k.IsolationLevel?
  }

  lemma FetchAndIdentityOutlines(k: ClientKey)
    requires IsFetchOrIdentity(k)
    ensures HasOutline(k)
  {
  }

  lemma OtherOutlines(k: ClientKey)
    requires !IsFetchOrIdentity(k)
    ensures HasOutline(k)
  {
  }

  lemma NamesHaveOutlines(k: ClientKey)
    ensures HasOutline(k)
  {
    if IsFetchOrIdentity(k) { FetchAndIdentityOutlines(k); } else { OtherOutlines(k); }
  }

  lemma OutlinesDiffer(a: ClientKey, b: ClientKey)
    requires Outline(a) == Outline(b)
    ensures a == b
  {
  }

  /** No two keys of the table share a name. */
  lemma ClientNamesDiffer(a: ClientKey, b: ClientKey)
    requires ClientName(a) == ClientName(b)
    ensures a == b
  {
    NamesHaveOutlines(a);
    NamesHaveOutlines(b);
    OutlinesDiffer(a, b);
  }

  lemma OutlinesAreNotShapes(k: ClientKey, s: SecurityKey)
    requires (Outline(k).0, Outline(k).1) == Shape(s)
    ensures k.RebalanceTimeout? && s.GcpCredentialsFile?
  {
  }

  /** A key of the table is no security key. */
  lemma NoClientNameIsSecure(k: ClientKey, s: SecurityKey)
    ensures ClientName(k) != WireName(s)
  {
    if ClientName(k) == WireName(s) {
      NamesHaveOutlines(k);
      NamesHaveShapes(s);
      OutlinesAreNotShapes(k, s);
    }
  }

  lemma {:induction false} FindsAt(keys: seq<ClientKey>, n: nat)
    requires n < |keys| && forall i :: 0 <= i < n ==> ClientName(keys[i]) != ClientName(keys[n])
    ensures FindClient(keys, ClientName(keys[n])) == Some(keys[n])
  {
    if n > 0 { FindsAt(keys[1..], n - 1); }
  }

  lemma {:induction false} FoundHasTheName(keys: seq<ClientKey>, name: string)
    ensures FindClient(keys, name).Some? ==>
      FindClient(keys, name).value in keys && ClientName(FindClient(keys, name).value) == name
  {
    if keys != [] { FoundHasTheName(keys[1..], name); }
  }

  lemma EveryKeyIsListedOnce(k: ClientKey) returns (n: nat)
    ensures n < |CLIENT_KEYS| && CLIENT_KEYS[n] == k && forall i :: 0 <= i < n ==> CLIENT_KEYS[i] != k
  {
    n := match k
      case AutoOffsetReset => 0
      case ClientId => 1
      case SessionTimeout => 2
      case HeartbeatInterval => 3
      case RebalanceTimeout => 4
      case AssignmentStrategy => 5
      case FetchMinBytes => 6
      case FetchMaxBytes => 7
      case MaxPartitionFetchBytes => 8
      case FetchMaxWait => 9
      case FetchWaitMax => 10
      case GroupInstanceId => 11
      case ClientRack => 12
      case MetadataMaxAge => 13
      case IsolationLevel => 14
      case ConnectionSetupTimeout => 15
      case ConnectionsMaxIdle => 16
      case RequestRetries => 17
      case RetryTimeout => 18
      case MaxConcurrentFetches => 19
      case AllowAutoCreateTopics => 20
      case CheckCrcs => 21
      case EnableMetricsPush => 22;
  }

  /** The table finds every key by its name. */
  lemma KeyOfClientName(k: ClientKey)
    ensures FindClient(CLIENT_KEYS, ClientName(k)) == Some(k)
  {
    var n := EveryKeyIsListedOnce(k);
    forall i | 0 <= i < n ensures ClientName(CLIENT_KEYS[i]) != ClientName(k) {
      if ClientName(CLIENT_KEYS[i]) == ClientName(k) { ClientNamesDiffer(CLIENT_KEYS[i], k); }
    }
    FindsAt(CLIENT_KEYS, n);
  }

  lemma ReservedOutlines(name: string)
    requires |name| > 8 && IsReserved(name)
    ensures |name| == 17 && name[0] == 'b'
  {
  }

  lemma NoClientNameIsReserved(k: ClientKey)
    ensures !IsReserved(ClientName(k))
  {
    NamesHaveOutlines(k);
    if IsReserved(ClientName(k)) { ReservedOutlines(ClientName(k)); }
  }

  /** Nor is it taken for a security key, or reserved. */
  lemma ClientNamesAreOrdinary(k: ClientKey)
    ensures KeyFor(ClientName(k)) == Other(ClientName(k)) && !IsReserved(ClientName(k))
  {
    FoundKeyHasTheName(ALL_KEYS, ClientName(k));
    if KeyOf(ClientName(k)).Some? { NoClientNameIsSecure(k, KeyOf(ClientName(k)).value); }
    NoClientNameIsReserved(k);
  }

  /** The name is that of a key of the table, and no other reader's. */
  predicate TableHas(name: string, k: ClientKey) {
    KeyFor(name) == Other(name) && !IsReserved(name) && FindClient(CLIENT_KEYS, name) == Some(k)
  }

  lemma TableHasEveryKey(k: ClientKey)
    ensures TableHas(ClientName(k), k)
  {
    KeyOfClientName(k);
    ClientNamesAreOrdinary(k);
  }

  lemma TableNamesDiffer(a: string, b: string, k: ClientKey)
    requires TableHas(a, k) && FindClient(CLIENT_KEYS, b) == Some(k)
    ensures a == b
  {
    FoundHasTheName(CLIENT_KEYS, a);
    FoundHasTheName(CLIENT_KEYS, b);
  }

  // -- Where an option comes from -------------------------------------------------------------------

  /** The key's translator makes the option of the value. */
  predicate Gives(k: ClientKey, value: string, opt: KgoOption) {
    Translate(k, value) == Ok(Some(opt))
  }

  /** The option is what the key's translator makes of some value. */
  ghost predicate Yields(k: ClientKey, opt: KgoOption) {
    exists value :: Gives(k, value, opt)
  }

  lemma ContributionOfName(config: map<string, string>, name: string, k: ClientKey, opt: KgoOption)
    requires TableHas(name, k)
    ensures Contributes(config, opt, name) <==> name in config && Gives(k, config[name], opt)
  {
  }

  lemma ContributorHasAKey(config: map<string, string>, opt: KgoOption, name: string) returns (k: ClientKey)
    requires Contributes(config, opt, name)
    ensures FindClient(CLIENT_KEYS, name) == Some(k) && Gives(k, config[name], opt) && Yields(k, opt)
  {
    k := FindClient(CLIENT_KEYS, name).value;
    assert Gives(k, config[name], opt);
  }

  /** An option that only one key yields is set exactly when that key is in the map with a value
      that yields it. */
  lemma SetByItsOnlyKey(config: map<string, string>, w: F.World, k: ClientKey, name: string, opt: KgoOption)
    requires TableHas(name, k) && Translated(config, w).Ok?
    requires forall other :: Yields(other, opt) ==> other == k
    ensures opt in Translated(config, w).value.opts <==> name in config && Gives(k, config[name], opt)
  {
    TranslationIsOfTheMap(config, w);
    ContributionOfName(config, name, k, opt);
    if n :| Contributes(config, opt, n) {
      var other := ContributorHasAKey(config, opt, n);
      TableNamesDiffer(name, n, k);
    }
  }

  /** The name is in the map and its value is fine and reads as d nanoseconds. */
  predicate Millis(config: map<string, string>, name: string, d: int) {
    name in config && MillisOption(config[name]) == Some(d)
  }

  predicate Count(config: map<string, string>, name: string, n: int) {
    name in config && Int32Option(config[name]) == Some(n)
  }

  predicate Says(config: map<string, string>, name: string, value: string) {
    name in config && config[name] == value
  }

  /** The value without white space around it and in lower case. */
  predicate Reads(config: map<string, string>, name: string, word: string) {
    name in config && Lower(Trim(config[name])) == word
  }

  predicate IsDuration(k: ClientKey) {
    || k.SessionTimeout? || k.HeartbeatInterval? || k.RebalanceTimeout? || k.FetchMaxWait? || k.FetchWaitMax?
    || k.MetadataMaxAge? || k.ConnectionSetupTimeout? || k.ConnectionsMaxIdle? || k.RetryTimeout?
  }

  lemma DurationGives(k: ClientKey, value: string, knob: ClientKey, d: int)
    ensures Gives(k, value, DurationOption(knob, d)) <==>
      IsDuration(k) && knob == (if k.FetchWaitMax? then FetchMaxWait else k) && MillisOption(value) == Some(d)
  {
  }

  lemma DurationIsSet(config: map<string, string>, w: F.World, k: ClientKey, name: string, d: int)
    requires name == ClientName(k) && Translated(config, w).Ok?
    requires IsDuration(k) && !k.FetchMaxWait? && !k.FetchWaitMax?
    ensures DurationOption(k, d) in Translated(config, w).value.opts <==> Millis(config, name, d)
  {
    TableHasEveryKey(k);
    var opt := DurationOption(k, d);
    forall other | Yields(other, opt) ensures other == k {
      var value :| Gives(other, value, opt);
      DurationGives(other, value, k, d);
    }
    SetByItsOnlyKey(config, w, k, name, opt);
    if name in config { DurationGives(k, config[name], k, d); }
  }

  predicate IsCount(k: ClientKey) {
    || k.FetchMinBytes? || k.FetchMaxBytes? || k.MaxPartitionFetchBytes? || k.RequestRetries?
    || k.MaxConcurrentFetches?
  }

  lemma NoOtherGivesCounts(k: ClientKey, value: string, knob: ClientKey, n: int)
    requires !IsCount(k)
    ensures !Gives(k, value, CountOption(knob, n))
  {
  }

  lemma CountGives(k: ClientKey, value: string, knob: ClientKey, n: int)
    ensures Gives(k, value, CountOption(knob, n)) <==> IsCount(k) && knob == k && Int32Option(value) == Some(n)
  {
    if IsCount(k) {
      assert Translate(k, value) == CountFor(k, value);
    } else {
      NoOtherGivesCounts(k, value, knob, n);
    }
  }

  lemma CountIsSet(config: map<string, string>, w: F.World, k: ClientKey, name: string, n: int)
    requires name == ClientName(k) && Translated(config, w).Ok? && IsCount(k)
    ensures CountOption(k, n) in Translated(config, w).value.opts <==> Count(config, name, n)
  {
    TableHasEveryKey(k);
    var opt := CountOption(k, n);
    forall other | Yields(other, opt) ensures other == k {
      var value :| Gives(other, value, opt);
      CountGives(other, value, k, n);
    }
    SetByItsOnlyKey(config, w, k, name, opt);
    if name in config { CountGives(k, config[name], k, n); }
  }

  predicate IsText(k: ClientKey) {
    k.ClientId? || k.GroupInstanceId? || k.ClientRack?
  }

  lemma TextGives(k: ClientKey, value: string, knob: ClientKey, text: string)
    ensures Gives(k, value, TextOption(knob, text)) <==>
      IsText(k) && knob == k && value == text && (k.ClientId? || Trim(value) != "")
  {
  }

  lemma EveryValueIsFine(config: map<string, string>, w: F.World, k: ClientKey, name: string)
    requires TableHas(name, k) && Translated(config, w).Ok? && name in config
    ensures Translate(k, config[name]).Ok?
  {
    TranslationIsOfTheMap(config, w);
    assert Accepted(name, config[name]);
  }

  lemma FineTextsAreNotBlank(k: ClientKey, value: string)
    requires IsText(k) && Translate(k, value).Ok?
    ensures k.ClientId? || Trim(value) != ""
  {
  }

  lemma TextIsSet(config: map<string, string>, w: F.World, k: ClientKey, name: string, text: string)
    requires name == ClientName(k) && Translated(config, w).Ok? && IsText(k)
    ensures TextOption(k, text) in Translated(config, w).value.opts <==> Says(config, name, text)
  {
    TableHasEveryKey(k);
    var opt := TextOption(k, text);
    forall other | Yields(other, opt) ensures other == k {
      var value :| Gives(other, value, opt);
      TextGives(other, value, k, text);
    }
    SetByItsOnlyKey(config, w, k, name, opt);
    if name in config {
      EveryValueIsFine(config, w, k, name);
      FineTextsAreNotBlank(k, config[name]);
      TextGives(k, config[name], k, text);
    }
  }

  predicate IsSwitch(k: ClientKey) {
    k.AllowAutoCreateTopics? || k.CheckCrcs? || k.EnableMetricsPush?
  }

  lemma SwitchForGives(k: ClientKey, value: string, default: bool, knob: ClientKey)
    ensures SwitchFor(k, value, default) == Ok(Some(Switch(knob))) <==>
      knob == k && Lower(Trim(value)) == if default then "false" else "true"
  {
  }

  lemma NoOtherGivesSwitches(k: ClientKey, value: string, knob: ClientKey)
    requires !IsSwitch(k)
    ensures !Gives(k, value, Switch(knob))
  {
  }

  lemma SwitchGives(k: ClientKey, value: string, knob: ClientKey)
    ensures Gives(k, value, Switch(knob)) <==>
      IsSwitch(k) && knob == k && Lower(Trim(value)) == if k.AllowAutoCreateTopics? then "true" else "false"
  {
    if IsSwitch(k) {
      SwitchForGives(k, value, !k.AllowAutoCreateTopics?, knob);
    } else {
      NoOtherGivesSwitches(k, value, knob);
    }
  }

  lemma SwitchIsSet(config: map<string, string>, w: F.World, k: ClientKey, name: string, word: string)
    requires name == ClientName(k) && Translated(config, w).Ok? && IsSwitch(k)
    requires word == if k.AllowAutoCreateTopics? then "true" else "false"
    ensures Switch(k) in Translated(config, w).value.opts <==> Reads(config, name, word)
  {
    TableHasEveryKey(k);
    forall other | Yields(other, Switch(k)) ensures other == k {
      var value :| Gives(other, value, Switch(k));
      SwitchGives(other, value, k);
    }
    SetByItsOnlyKey(config, w, k, name, Switch(k));
    if name in config { SwitchGives(k, config[name], k); }
  }

  lemma StartGives(k: ClientKey, value: string, earliest: bool)
    ensures Gives(k, value, StartOffset(earliest)) <==>
      k.AutoOffsetReset? && value == if earliest then "earliest" else "latest"
  {
  }

  lemma StartIsSet(config: map<string, string>, w: F.World, name: string, earliest: bool, word: string)
    requires name == ClientName(AutoOffsetReset) && Translated(config, w).Ok?
    requires word == if earliest then "earliest" else "latest"
    ensures StartOffset(earliest) in Translated(config, w).value.opts <==> Says(config, name, word)
  {
    TableHasEveryKey(AutoOffsetReset);
    var opt := StartOffset(earliest);
    forall other | Yields(other, opt) ensures other.AutoOffsetReset? {
      var value :| Gives(other, value, opt);
      StartGives(other, value, earliest);
    }
    SetByItsOnlyKey(config, w, AutoOffsetReset, name, opt);
    if name in config { StartGives(AutoOffsetReset, config[name], earliest); }
  }

  lemma LevelGives(k: ClientKey, value: string)
    ensures Gives(k, value, ReadCommitted) <==> k.IsolationLevel? && Lower(Trim(value)) == "read_committed"
  {
  }

  lemma LevelIsSet(config: map<string, string>, w: F.World, name: string)
    requires name == ClientName(IsolationLevel) && Translated(config, w).Ok?
    ensures ReadCommitted in Translated(config, w).value.opts <==> Reads(config, name, "read_committed")
  {
    TableHasEveryKey(IsolationLevel);
    forall other | Yields(other, ReadCommitted) ensures other.IsolationLevel? {
      var value :| Gives(other, value, ReadCommitted);
      LevelGives(other, value);
    }
    SetByItsOnlyKey(config, w, IsolationLevel, name, ReadCommitted);
    if name in config { LevelGives(IsolationLevel, config[name]); }
  }

  lemma BalancersGive(k: ClientKey, value: string, list: seq<ListCodecs.Strategy>)
    ensures Gives(k, value, Balancers(list)) <==>
      k.AssignmentStrategy? && ListCodecs.ParseStrategies(value) == Ok(list)
  {
  }

  lemma BalancersAreSet(config: map<string, string>, w: F.World, name: string, list: seq<ListCodecs.Strategy>)
    requires name == ClientName(AssignmentStrategy) && Translated(config, w).Ok?
    ensures Balancers(list) in Translated(config, w).value.opts <==>
      name in config && ListCodecs.ParseStrategies(config[name]) == Ok(list)
  {
    TableHasEveryKey(AssignmentStrategy);
    var opt := Balancers(list);
    forall other | Yields(other, opt) ensures other.AssignmentStrategy? {
      var value :| Gives(other, value, opt);
      BalancersGive(other, value, list);
    }
    SetByItsOnlyKey(config, w, AssignmentStrategy, name, opt);
    if name in config { BalancersGive(AssignmentStrategy, config[name], list); }
  }

  /** Both spellings set the one option. */
  lemma FetchWaitIsSet(config: map<string, string>, w: F.World, name: string, other: string, d: int)
    requires name == ClientName(FetchMaxWait) && other == ClientName(FetchWaitMax) && Translated(config, w).Ok?
    ensures DurationOption(FetchMaxWait, d) in Translated(config, w).value.opts <==>
      Millis(config, name, d) || Millis(config, other, d)
  {
    TableHasEveryKey(FetchMaxWait);
    TableHasEveryKey(FetchWaitMax);
    var opt := DurationOption(FetchMaxWait, d);
    TranslationIsOfTheMap(config, w);
    ContributionOfName(config, name, FetchMaxWait, opt);
    ContributionOfName(config, other, FetchWaitMax, opt);
    if name in config { DurationGives(FetchMaxWait, config[name], FetchMaxWait, d); }
    if other in config { DurationGives(FetchWaitMax, config[other], FetchMaxWait, d); }
    if n :| Contributes(config, opt, n) {
      var k := ContributorHasAKey(config, opt, n);
      DurationGives(k, config[n], FetchMaxWait, d);
      if k.FetchMaxWait? { TableNamesDiffer(name, n, k); } else { TableNamesDiffer(other, n, k); }
    }
  }

  // -- The names, one by one ---------------------------------------------------------------------------

  /** Where a new group starts: at the beginning for "earliest", at the end for "latest". */
  lemma StartOffsetByName(config: map<string, string>, w: F.World)
    requires Translated(config, w).Ok?
    ensures var opts := Translated(config, w).value.opts;
      && (StartOffset(true) in opts <==> Says(config, "auto.offset.reset", "earliest"))
      && (StartOffset(false) in opts <==> Says(config, "auto.offset.reset", "latest"))
  {
    StartIsSet(config, w, "auto.offset.reset", true, "earliest");
    StartIsSet(config, w, "auto.offset.reset", false, "latest");
  }

  /** Each duration option carries the milliseconds of its own name, in nanoseconds: those of the
      consumer group. */
  lemma GroupDurationsByName(config: map<string, string>, w: F.World, d: int)
    requires Translated(config, w).Ok?
    ensures var opts := Translated(config, w).value.opts;
      && (DurationOption(SessionTimeout, d) in opts <==> Millis(config, "session.timeout.ms", d))
      && (DurationOption(HeartbeatInterval, d) in opts <==> Millis(config, "heartbeat.interval.ms", d))
      && (DurationOption(RebalanceTimeout, d) in opts <==> Millis(config, "rebalance.timeout.ms", d))
  {
    DurationIsSet(config, w, SessionTimeout, "session.timeout.ms", d);
    DurationIsSet(config, w, HeartbeatInterval, "heartbeat.interval.ms", d);
    DurationIsSet(config, w, RebalanceTimeout, "rebalance.timeout.ms", d);
  }

  /** Those of its connections. */
  lemma ConnectionDurationsByName(config: map<string, string>, w: F.World, d: int)
    requires Translated(config, w).Ok?
    ensures var opts := Translated(config, w).value.opts;
      && (DurationOption(ConnectionSetupTimeout, d) in opts <==>
            Millis(config, "socket.connection.setup.timeout.ms", d))
      && (DurationOption(ConnectionsMaxIdle, d) in opts <==> Millis(config, "connections.max.idle.ms", d))
  {
    DurationIsSet(config, w, ConnectionSetupTimeout, "socket.connection.setup.timeout.ms", d);
    DurationIsSet(config, w, ConnectionsMaxIdle, "connections.max.idle.ms", d);
  }

  /** Those of its metadata and its requests. */
  lemma RequestDurationsByName(config: map<string, string>, w: F.World, d: int)
    requires Translated(config, w).Ok?
    ensures var opts := Translated(config, w).value.opts;
      && (DurationOption(MetadataMaxAge, d) in opts <==> Millis(config, "metadata.max.age.ms", d))
      && (DurationOption(RetryTimeout, d) in opts <==> Millis(config, "llingr.retry.timeout.ms", d))
  {
    DurationIsSet(config, w, MetadataMaxAge, "metadata.max.age.ms", d);
    DurationIsSet(config, w, RetryTimeout, "llingr.retry.timeout.ms", d);
  }

  /** Each count option carries the number of its own name: the sizes of a fetch. */
  lemma SizesByName(config: map<string, string>, w: F.World, n: int)
    requires Translated(config, w).Ok?
    ensures var opts := Translated(config, w).value.opts;
      && (CountOption(FetchMinBytes, n) in opts <==> Count(config, "fetch.min.bytes", n))
      && (CountOption(FetchMaxBytes, n) in opts <==> Count(config, "fetch.max.bytes", n))
      && (CountOption(MaxPartitionFetchBytes, n) in opts <==> Count(config, "max.partition.fetch.bytes", n))
  {
    CountIsSet(config, w, FetchMinBytes, "fetch.min.bytes", n);
    CountIsSet(config, w, FetchMaxBytes, "fetch.max.bytes", n);
    CountIsSet(config, w, MaxPartitionFetchBytes, "max.partition.fetch.bytes", n);
  }

  /** And the limits on requests. */
  lemma LimitsByName(config: map<string, string>, w: F.World, n: int)
    requires Translated(config, w).Ok?
    ensures var opts := Translated(config, w).value.opts;
      && (CountOption(RequestRetries, n) in opts <==> Count(config, "llingr.request.retries", n))
      && (CountOption(MaxConcurrentFetches, n) in opts <==> Count(config, "llingr.max.concurrent.fetches", n))
  {
    CountIsSet(config, w, RequestRetries, "llingr.request.retries", n);
    CountIsSet(config, w, MaxConcurrentFetches, "llingr.max.concurrent.fetches", n);
  }

  /** The texts arrive unchanged. */
  lemma TextsByName(config: map<string, string>, w: F.World, text: string)
    requires Translated(config, w).Ok?
    ensures var opts := Translated(config, w).value.opts;
      && (TextOption(ClientId, text) in opts <==> Says(config, "client.id", text))
      && (TextOption(GroupInstanceId, text) in opts <==> Says(config, "group.instance.id", text))
      && (TextOption(ClientRack, text) in opts <==> Says(config, "client.rack", text))
  {
    TextIsSet(config, w, ClientId, "client.id", text);
    TextIsSet(config, w, GroupInstanceId, "group.instance.id", text);
    TextIsSet(config, w, ClientRack, "client.rack", text);
  }

  /** The switches are set for the value that is not the client's default, and only then. */
  lemma SwitchesByName(config: map<string, string>, w: F.World)
    requires Translated(config, w).Ok?
    ensures var opts := Translated(config, w).value.opts;
      && (Switch(AllowAutoCreateTopics) in opts <==> Reads(config, "allow.auto.create.topics", "true"))
      && (Switch(CheckCrcs) in opts <==> Reads(config, "check.crcs", "false"))
      && (Switch(EnableMetricsPush) in opts <==> Reads(config, "enable.metrics.push", "false"))
  {
    SwitchIsSet(config, w, AllowAutoCreateTopics, "allow.auto.create.topics", "true");
    SwitchIsSet(config, w, CheckCrcs, "check.crcs", "false");
    SwitchIsSet(config, w, EnableMetricsPush, "enable.metrics.push", "false");
  }

  /** The isolation level is set when it is asked for, and the balancers are those that the
      strategy list names. */
  lemma LevelAndStrategiesByName(config: map<string, string>, w: F.World, list: seq<ListCodecs.Strategy>)
    requires Translated(config, w).Ok?
    ensures var opts := Translated(config, w).value.opts;
      && (ReadCommitted in opts <==> Reads(config, "isolation.level", "read_committed"))
      && (Balancers(list) in opts <==>
            "partition.assignment.strategy" in config
            && ListCodecs.ParseStrategies(config["partition.assignment.strategy"]) == Ok(list))
  {
    LevelIsSet(config, w, "isolation.level");
    BalancersAreSet(config, w, "partition.assignment.strategy", list);
  }

  /** Both spellings of the fetch wait set the one option. */
  lemma FetchWaitByName(config: map<string, string>, w: F.World, d: int)
    requires Translated(config, w).Ok?
    ensures DurationOption(FetchMaxWait, d) in Translated(config, w).value.opts <==>
      Millis(config, "fetch.max.wait.ms", d) || Millis(config, "fetch.wait.max.ms", d)
  {
    FetchWaitIsSet(config, w, "fetch.max.wait.ms", "fetch.wait.max.ms", d);
  }

  // -- Which values the table takes, by name -----------------------------------------------------------

  const DURATION_NAMES: seq<string> := [
    "session.timeout.ms", "heartbeat.interval.ms", "rebalance.timeout.ms", "fetch.max.wait.ms",
    "fetch.wait.max.ms", "metadata.max.age.ms", "socket.connection.setup.timeout.ms",
    "connections.max.idle.ms", "llingr.retry.timeout.ms"]

  const COUNT_NAMES: seq<string> := [
    "fetch.min.bytes", "fetch.max.bytes", "max.partition.fetch.bytes", "llingr.request.retries",
    "llingr.max.concurrent.fetches"]

  const SWITCH_NAMES: seq<string> := [
    "allow.auto.create.topics", "check.crcs", "enable.metrics.push"]

  lemma DurationNamed(name: string) returns (k: ClientKey)
    requires name in DURATION_NAMES
    ensures IsDuration(k) && ClientName(k) == name
  {
    var i :| 0 <= i < |DURATION_NAMES| && DURATION_NAMES[i] == name;
    k := [SessionTimeout, HeartbeatInterval, RebalanceTimeout, FetchMaxWait, FetchWaitMax, MetadataMaxAge, ConnectionSetupTimeout, ConnectionsMaxIdle, RetryTimeout][i];
  }

  lemma CountNamed(name: string) returns (k: ClientKey)
    requires name in COUNT_NAMES
    ensures IsCount(k) && ClientName(k) == name
  {
    var i :| 0 <= i < |COUNT_NAMES| && COUNT_NAMES[i] == name;
    k := [FetchMinBytes, FetchMaxBytes, MaxPartitionFetchBytes, RequestRetries, MaxConcurrentFetches][i];
  }

  lemma SwitchNamed(name: string) returns (k: ClientKey)
    requires name in SWITCH_NAMES
    ensures IsSwitch(k) && ClientName(k) == name
  {
    var i :| 0 <= i < |SWITCH_NAMES| && SWITCH_NAMES[i] == name;
    k := [AllowAutoCreateTopics, CheckCrcs, EnableMetricsPush][i];
  }

  lemma DurationIsListed(k: ClientKey)
    requires IsDuration(k)
    ensures ClientName(k) in DURATION_NAMES
  {
    match k
    case SessionTimeout => assert DURATION_NAMES[0] == ClientName(k);
    case HeartbeatInterval => assert DURATION_NAMES[1] == ClientName(k);
    case RebalanceTimeout => assert DURATION_NAMES[2] == ClientName(k);
    case FetchMaxWait => assert DURATION_NAMES[3] == ClientName(k);
    case FetchWaitMax => assert DURATION_NAMES[4] == ClientName(k);
    case MetadataMaxAge => assert DURATION_NAMES[5] == ClientName(k);
    case ConnectionSetupTimeout => assert DURATION_NAMES[6] == ClientName(k);
    case ConnectionsMaxIdle => assert DURATION_NAMES[7] == ClientName(k);
    case RetryTimeout => assert DURATION_NAMES[8] == ClientName(k);
  }

  lemma CountIsListed(k: ClientKey)
    requires IsCount(k)
    ensures ClientName(k) in COUNT_NAMES
  {
    match k
    case FetchMinBytes => assert COUNT_NAMES[0] == ClientName(k);
    case FetchMaxBytes => assert COUNT_NAMES[1] == ClientName(k);
    case MaxPartitionFetchBytes => assert COUNT_NAMES[2] == ClientName(k);
    case RequestRetries => assert COUNT_NAMES[3] == ClientName(k);
    case MaxConcurrentFetches => assert COUNT_NAMES[4] == ClientName(k);
  }

  lemma SwitchIsListed(k: ClientKey)
    requires IsSwitch(k)
    ensures ClientName(k) in SWITCH_NAMES
  {
    match k
    case AllowAutoCreateTopics => assert SWITCH_NAMES[0] == ClientName(k);
    case CheckCrcs => assert SWITCH_NAMES[1] == ClientName(k);
    case EnableMetricsPush => assert SWITCH_NAMES[2] == ClientName(k);
  }

  /** What the key's translator takes. */
  predicate Takes(k: ClientKey, value: string) {
    if IsDuration(k) then MillisOption(value).Some?
    else if IsCount(k) then Int32Option(value).Some?
    else if IsSwitch(k) then Lower(Trim(value)) == "true" || Lower(Trim(value)) == "false"
    else if k.AutoOffsetReset? then value == "earliest" || value == "latest"
    else if k.IsolationLevel? then Lower(Trim(value)) == "read_committed"
    else if k.AssignmentStrategy? then ListCodecs.ParseStrategies(value).Ok?
    else k.ClientId? || Trim(value) != ""
  }

  lemma SwitchForTakes(k: ClientKey, value: string, default: bool)
    ensures SwitchFor(k, value, default).Ok? <==> Lower(Trim(value)) == "true" || Lower(Trim(value)) == "false"
  {
  }

  lemma OtherTranslatorsTake(k: ClientKey, value: string)
    requires !IsSwitch(k)
    ensures Translate(k, value).Ok? <==> Takes(k, value)
  {
  }

  lemma TranslatorTakes(k: ClientKey, value: string)
    ensures Translate(k, value).Ok? <==> Takes(k, value)
  {
    if IsSwitch(k) {
      SwitchForTakes(k, value, !k.AllowAutoCreateTopics?);
    } else {
      OtherTranslatorsTake(k, value);
    }
  }

  lemma TableTakes(k: ClientKey, name: string, value: string)
    requires name == ClientName(k)
    ensures Accepted(name, value) <==> Takes(k, value)
  {
    TableHasEveryKey(k);
    TranslatorTakes(k, value);
  }

  /** A duration is taken exactly when it is a positive number of milliseconds. */
  lemma DurationsAreTaken(name: string, value: string)
    requires name in DURATION_NAMES
    ensures Accepted(name, value) <==> MillisOption(value).Some?
  {
    var k := DurationNamed(name);
    TableTakes(k, name, value);
  }

  /** A count is taken exactly when it is a positive 32-bit number. */
  lemma CountsAreTaken(name: string, value: string)
    requires name in COUNT_NAMES
    ensures Accepted(name, value) <==> Int32Option(value).Some?
  {
    var k := CountNamed(name);
    TableTakes(k, name, value);
  }

  /** A switch is taken exactly when it is a boolean. */
  lemma SwitchesAreTaken(name: string, value: string)
    requires name in SWITCH_NAMES
    ensures Accepted(name, value) <==> Lower(Trim(value)) == "true" || Lower(Trim(value)) == "false"
  {
    var k := SwitchNamed(name);
    TableTakes(k, name, value);
  }

  /** The keys whose values are words take exactly these. */
  lemma WordsAreTaken(name: string, value: string)
    ensures name == "auto.offset.reset" ==>
      (Accepted(name, value) <==> value == "earliest" || value == "latest")
    ensures name == "isolation.level" ==>
      (Accepted(name, value) <==> Lower(Trim(value)) == "read_committed")
  {
    if name == "auto.offset.reset" { TableTakes(AutoOffsetReset, name, value); }
    if name == "isolation.level" { TableTakes(IsolationLevel, name, value); }
  }

  /** A strategy list is taken exactly when it can be read. */
  lemma StrategiesAreTaken(name: string, value: string)
    requires name == "partition.assignment.strategy"
    ensures Accepted(name, value) <==> ListCodecs.ParseStrategies(value).Ok?
  {
    TableTakes(AssignmentStrategy, name, value);
  }

  /** The keys whose values are texts take any that is not blank, the client id any. */
  lemma TextsAreTaken(name: string, value: string)
    ensures name == "client.id" ==> Accepted(name, value)
    ensures name == "group.instance.id" ==>
      (Accepted(name, value) <==> Trim(value) != "")
    ensures name == "client.rack" ==>
      (Accepted(name, value) <==> Trim(value) != "")
  {
    if name == "client.id" { TableTakes(ClientId, name, value); }
    if name == "group.instance.id" { TableTakes(GroupInstanceId, name, value); }
    if name == "client.rack" { TableTakes(ClientRack, name, value); }
  }

  /** A name that is none of these, and no security key, is refused, and so is a reserved one. */
  lemma OtherNamesAreRefused(name: string, value: string)
    requires Accepted(name, value) && KeyFor(name).Other?
    ensures
      || name in DURATION_NAMES || name in COUNT_NAMES || name in SWITCH_NAMES
      || name in ["auto.offset.reset", "isolation.level", "partition.assignment.strategy", "client.id",
                  "group.instance.id", "client.rack"]
  {
    FoundHasTheName(CLIENT_KEYS, name);
    var k := FindClient(CLIENT_KEYS, name).value;
    if IsDuration(k) {
      DurationIsListed(k);
    } else if IsCount(k) {
      CountIsListed(k);
    } else if IsSwitch(k) {
      SwitchIsListed(k);
    }
  }

  lemma TranslatorsSayValues(k: ClientKey, value: string)
    ensures Translate(k, value).Err? ==>
      !Translate(k, value).error.Reserved? && !Translate(k, value).error.Unsupported?
  {
  }

  /** A refusal says why: the name is set through a setter of its own, or is not known; anything
      else is about the value. */
  lemma RefusalsSayWhy(before: Walked, name: string, value: string)
    ensures Step(before, name, value) == Err(Reserved(name)) <==> name == "bootstrap.servers" || name == "group.id"
    ensures Step(before, name, value) == Err(OptionError.Unsupported(name)) <==>
      !IsReserved(name) && KeyFor(name).Other? && FindClient(CLIENT_KEYS, name).None?
  {
    var client := FindClient(CLIENT_KEYS, name);
    if client.Some? { TranslatorsSayValues(client.value, value); }
  }
}
