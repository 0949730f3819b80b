/** The bridge's option table: every key is consumed by exactly one reader or refused. */
module OptionTable {
  import opened Common
  import opened Text
  import opened SecurityKeys
  import opened GoNumbers
  import ListCodecs
  import F = FranzSecurity

  // -- The keys ---------------------------------------------------------------------------------

  datatype ClientKey =
    | AutoOffsetReset | ClientId | SessionTimeout | HeartbeatInterval
    | RebalanceTimeout | AssignmentStrategy | FetchMinBytes | FetchMaxBytes
    | MaxPartitionFetchBytes | FetchMaxWait | FetchWaitMax | GroupInstanceId
    | ClientRack | MetadataMaxAge | IsolationLevel | ConnectionSetupTimeout
    | ConnectionsMaxIdle | RequestRetries | RetryTimeout | MaxConcurrentFetches
    | AllowAutoCreateTopics | CheckCrcs | EnableMetricsPush

  function ClientName(k: ClientKey): string {
    match k
    case AutoOffsetReset => "auto.offset.reset"
    case ClientId => "client.id"
    case SessionTimeout => "session.timeout.ms"
    case HeartbeatInterval => "heartbeat.interval.ms"
    case RebalanceTimeout => "rebalance.timeout.ms"
    case AssignmentStrategy => "partition.assignment.strategy"
    case FetchMinBytes => "fetch.min.bytes"
    case FetchMaxBytes => "fetch.max.bytes"
    case MaxPartitionFetchBytes => "max.partition.fetch.bytes"
    case FetchMaxWait => "fetch.max.wait.ms"
    case FetchWaitMax => "fetch.wait.max.ms"
    case GroupInstanceId => "group.instance.id"
    case ClientRack => "client.rack"
    case MetadataMaxAge => "metadata.max.age.ms"
    case IsolationLevel => "isolation.level"
    case ConnectionSetupTimeout => "socket.connection.setup.timeout.ms"
    case ConnectionsMaxIdle => "connections.max.idle.ms"
    case RequestRetries => "llingr.request.retries"
    case RetryTimeout => "llingr.retry.timeout.ms"
    case MaxConcurrentFetches => "llingr.max.concurrent.fetches"
    case AllowAutoCreateTopics => "allow.auto.create.topics"
    case CheckCrcs => "check.crcs"
    case EnableMetricsPush => "enable.metrics.push"
  }

  const CLIENT_KEYS: seq<ClientKey> := [
    AutoOffsetReset, ClientId, SessionTimeout, HeartbeatInterval,
    RebalanceTimeout, AssignmentStrategy, FetchMinBytes, FetchMaxBytes,
    MaxPartitionFetchBytes, FetchMaxWait, FetchWaitMax, GroupInstanceId,
    ClientRack, MetadataMaxAge, IsolationLevel, ConnectionSetupTimeout,
    ConnectionsMaxIdle, RequestRetries, RetryTimeout, MaxConcurrentFetches,
    AllowAutoCreateTopics, CheckCrcs, EnableMetricsPush]

  function FindClient(keys: seq<ClientKey>, name: string): Option<ClientKey> {
    if keys == [] then None
    else if ClientName(keys[0]) == name then Some(keys[0])
    else FindClient(keys[1..], name)
  }

  datatype AdapterKey = LogLevel | BailAfter | LogInterval | Backoff

  function AdapterName(k: AdapterKey): string {
    match k
    case LogLevel => "llingr.client.log.level"
    case BailAfter => "llingr.poll.error.bail.after.ms"
    case LogInterval => "llingr.poll.error.log.interval.ms"
    case Backoff => "llingr.poll.error.backoff.ms"
  }

  predicate IsReserved(name: string) {
    name == "bootstrap.servers" || name == "group.id"
  }

  // -- One value ---------------------------------------------------------------------------------

  datatype OptionError =
    | Reserved(name: string)
    | Unsupported(name: string)
    | BadValue(name: string)
    | BadStrategy(strategyError: ListCodecs.StrategyError)
    | BadSecurity(securityError: F.SecurityError)
    | DrainTooLong
    | BadInterval(name: string)

  /** A client option, durations in nanoseconds. Most are named by their only key; the two
      spellings of the fetch wait set one option. */
  datatype KgoOption =
    | StartOffset(earliest: bool)
    | TextOption(key: ClientKey, text: string)
    | DurationOption(key: ClientKey, nanos: int)
    | CountOption(key: ClientKey, n: int)
    | Balancers(list: seq<ListCodecs.Strategy>)
    | ReadCommitted
    | Switch(key: ClientKey)

  function DurationFor(k: ClientKey, value: string): Result<Option<KgoOption>, OptionError> {
    match MillisOption(value)
    case None => Err(BadValue(ClientName(k)))
    case Some(d) => Ok(Some(DurationOption(if k.FetchWaitMax? then FetchMaxWait else k, d)))
  }

  function CountFor(k: ClientKey, value: string): Result<Option<KgoOption>, OptionError> {
    match Int32Option(value)
    case None => Err(BadValue(ClientName(k)))
    case Some(n) => Ok(Some(CountOption(k, n)))
  }

  /** A boolean that sets something only when it differs from the client's default. */
  function SwitchFor(k: ClientKey, value: string, default: bool): Result<Option<KgoOption>, OptionError> {
    match BoolOption(value)
    case None => Err(BadValue(ClientName(k)))
    case Some(on) => Ok(if on == default then None else Some(Switch(k)))
  }

  function NonBlankFor(k: ClientKey, value: string): Result<Option<KgoOption>, OptionError> {
    if Trim(value) == "" then Err(BadValue(ClientName(k))) else Ok(Some(TextOption(k, value)))
  }

  /** The translator of each key; no option when the value restates the default. */
  function Translate(k: ClientKey, value: string): Result<Option<KgoOption>, OptionError> {
    match k
    case AutoOffsetReset =>
      if value == "earliest" then Ok(Some(StartOffset(true)))
      else if value == "latest" then Ok(Some(StartOffset(false)))
      else Err(BadValue(ClientName(k)))
    case ClientId => Ok(Some(TextOption(k, value)))
    case AssignmentStrategy =>
      (match ListCodecs.ParseStrategies(value)
       case Err(e) => Err(BadStrategy(e))
       case Ok(list) => Ok(Some(Balancers(list))))
    case GroupInstanceId => NonBlankFor(k, value)
    case ClientRack => NonBlankFor(k, value)
    case IsolationLevel =>
      if Lower(Trim(value)) == "read_committed" then Ok(Some(ReadCommitted)) else Err(BadValue(ClientName(k)))
    case FetchMinBytes => CountFor(k, value)
    case FetchMaxBytes => CountFor(k, value)
    case MaxPartitionFetchBytes => CountFor(k, value)
    case RequestRetries => CountFor(k, value)
    case MaxConcurrentFetches => CountFor(k, value)
    case AllowAutoCreateTopics => SwitchFor(k, value, false)
    case CheckCrcs => SwitchFor(k, value, true)
    case EnableMetricsPush => SwitchFor(k, value, true)
    case _ => DurationFor(k, value)
  }

  // -- One key of the table ------------------------------------------------------------------------

  datatype Walked = Walked(opts: seq<KgoOption>, fields: F.Fields, sawKey: bool)

  const START := Walked([], map[], false)

  /** One turn of the loop over the sorted keys. */
  function Step(before: Walked, name: string, value: string): Result<Walked, OptionError> {
    if IsReserved(name) then Err(Reserved(name))
    else
      match KeyFor(name)
      case Secure(k) => Ok(before.(fields := F.Collected(before.fields, k, value), sawKey := true))
      case Other(_) =>
        match FindClient(CLIENT_KEYS, name)
        case None => Err(Unsupported(name))
        case Some(k) =>
          match Translate(k, value)
          case Err(e) => Err(e)
          case Ok(None) => Ok(before)
          case Ok(Some(opt)) => Ok(before.(opts := before.opts + [opt]))
  }

  function Walk(keys: seq<string>, config: map<string, string>): Result<Walked, OptionError>
    requires forall i :: 0 <= i < |keys| ==> keys[i] in config
  {
    if keys == [] then Ok(START)
    else
      match Walk(keys[..|keys| - 1], config)
      case Err(e) => Err(e)
      case Ok(before) => Step(before, keys[|keys| - 1], config[keys[|keys| - 1]])
  }

  datatype KgoOptions = KgoOptions(opts: seq<KgoOption>, security: F.Wiring)

  function Finish(walked: Result<Walked, OptionError>, w: F.World): Result<KgoOptions, OptionError> {
    match walked
    case Err(e) => Err(e)
    case Ok(end) =>
      match F.Build(end.fields, end.sawKey, w)
      case Err(e) => Err(BadSecurity(e))
      case Ok(wiring) => Ok(KgoOptions(end.opts, wiring))
  }

  // -- Sorted keys ---------------------------------------------------------------------------------

  /** The order of sort.Strings. */
  predicate Less(a: string, b: string) {
    b != [] && (a == [] || a[0] < b[0] || (a[0] == b[0] && Less(a[1..], b[1..])))
  }

  lemma {:induction false} LessIsTotal(a: string, b: string)
    ensures Less(a, b) || Less(b, a) || a == b
    ensures !(Less(a, b) && Less(b, a)) && !Less(a, a)
  {
    if a != [] && b != [] {
      LessIsTotal(a[1..], b[1..]);
      LessIsTotal(a[1..], a[1..]);
      assert a == [a[0]] + a[1..] && b == [b[0]] + b[1..];
    } else if a != [] {
      LessIsTotal(a[1..], a[1..]);
    }
  }

  lemma {:induction false} LessIsTransitive(a: string, b: string, c: string)
    requires Less(a, b) && Less(b, c)
    ensures Less(a, c)
  {
    if a != [] && a[0] == b[0] && b[0] == c[0] { LessIsTransitive(a[1..], b[1..], c[1..]); }
  }

  predicate Sorted(keys: seq<string>) {
    forall i, j :: 0 <= i < j < |keys| ==> Less(keys[i], keys[j])
  }

  /** The keys of a map in order. */
  ghost predicate SortedKeysOf(keys: seq<string>, config: map<string, string>) {
    Sorted(keys) && forall k :: k in keys <==> k in config
  }

  function Insert(keys: seq<string>, key: string): (r: seq<string>)
    requires Sorted(keys) && key !in keys
    ensures Sorted(r) && forall k :: k in r <==> k == key || k in keys
  {
    if keys == [] then [key]
    else
      LessIsTotal(key, keys[0]);
      if Less(key, keys[0]) then
        PrependSorted(key, keys);
        [key] + keys
      else
        var rest := Insert(keys[1..], key);
        InsertedAfter(keys[0], keys[1..], key, rest);
        [keys[0]] + rest
  }

  lemma PrependSorted(key: string, keys: seq<string>)
    requires Sorted(keys) && keys != [] && Less(key, keys[0])
    ensures Sorted([key] + keys)
  {
    var all := [key] + keys;
    forall i, j | 0 <= i < j < |all| ensures Less(all[i], all[j]) {
      if i == 0 && j > 1 { LessIsTransitive(key, keys[0], keys[j - 1]); }
    }
  }

  lemma InsertedAfter(first: string, others: seq<string>, key: string, rest: seq<string>)
    requires Sorted([first] + others) && Less(first, key) && Sorted(rest)
    requires forall k :: k in rest <==> k == key || k in others
    ensures Sorted([first] + rest) && forall k :: k in [first] + rest <==> k == key || k in [first] + others
  {
    var all, before := [first] + rest, [first] + others;
    forall i, j | 0 <= i < j < |all| ensures Less(all[i], all[j]) {
      if i == 0 {
        assert all[j] in rest;
        if all[j] != key {
          var n :| 0 <= n < |others| && others[n] == all[j];
          assert before[n + 1] == all[j] && before[0] == first;
          assert Less(before[0], before[n + 1]);
        }
      } else {
        assert all[i] == rest[i - 1] && all[j] == rest[j - 1];
      }
    }
  }

  /** Sorting leaves no choice: the order in which the map was enumerated does not matter. */
  lemma {:induction false} SortedKeysAreUnique(a: seq<string>, b: seq<string>)
    requires Sorted(a) && Sorted(b) && forall k :: k in a <==> k in b
    ensures a == b
  {
    if a != [] { assert a[0] in a; }
    if b != [] { assert b[0] in b; }
    if a != [] && b != [] {
      LessIsTotal(a[0], b[0]);
      forall k ensures k in a[1..] <==> k in b[1..] {
        if k in a[1..] { FirstIsNotAmongTheRest(a, k); assert k in a; }
        if k in b[1..] { FirstIsNotAmongTheRest(b, k); assert k in b; }
      }
      SortedKeysAreUnique(a[1..], b[1..]);
      assert a == [a[0]] + a[1..] && b == [b[0]] + b[1..];
    }
  }

  lemma FirstIsNotAmongTheRest(keys: seq<string>, k: string)
    requires Sorted(keys) && keys != [] && k in keys[1..]
    ensures k != keys[0] && Less(keys[0], k)
  {
    var i :| 0 <= i < |keys| - 1 && keys[1..][i] == k;
    assert keys[i + 1] == k;
    LessIsTotal(k, k);
  }

  lemma {:induction false} SortedOf(names: set<string>) returns (keys: seq<string>)
    ensures Sorted(keys) && forall k :: k in keys <==> k in names
  {
    if names == {} {
      keys := [];
    } else {
      var name :| name in names;
      var rest := SortedOf(names - {name});
      keys := Insert(rest, name);
    }
  }

  lemma SortedKeysExist(config: map<string, string>)
    ensures exists keys :: SortedKeysOf(keys, config)
  {
    var keys := SortedOf(config.Keys);
    assert SortedKeysOf(keys, config);
  }

  /** The keys of the map in order: there is one such list. */
  ghost function KeysInOrder(config: map<string, string>): (keys: seq<string>)
    ensures SortedKeysOf(keys, config)
  {
    SortedKeysExist(config);
    var keys :| SortedKeysOf(keys, config);
    keys
  }

  /** The translation of a whole map. */
  ghost function Translated(config: map<string, string>, w: F.World): Result<KgoOptions, OptionError> {
    Finish(Walk(KeysInOrder(config), config), w)
  }

  method SortKeys(config: map<string, string>) returns (keys: seq<string>)
    ensures SortedKeysOf(keys, config) && keys == KeysInOrder(config)
  {
    keys := [];
    var rest := config.Keys;
    while rest != {}
      invariant rest <= config.Keys && Sorted(keys)
      invariant forall k :: k in keys <==> k in config && k !in rest
      decreases rest
    {
      var key :| key in rest;
      rest := rest - {key};
      keys := Insert(keys, key);
    }
    SortedKeysAreUnique(keys, KeysInOrder(config));
  }

  /** The body of the loop: one key is collected as security, translated by the table or refused. */
  method TakeKey(security: F.FranzSecurity, opts: seq<KgoOption>, key: string, value: string)
    returns (r: Result<seq<KgoOption>, OptionError>)
    modifies security
    ensures var step := Step(Walked(opts, old(security.fields), old(security.sawKey)), key, value);
      match r
      case Err(e) => step == Err(e)
      case Ok(after) => step == Ok(Walked(after, security.fields, security.sawKey))
  {
    if IsReserved(key) {
      return Err(Reserved(key));
    }
    var collected := security.Collect(KeyFor(key), value);
    if collected {
      return Ok(opts);
    }
    var client := FindClient(CLIENT_KEYS, key);
    if client.None? {
      return Err(Unsupported(key));
    }
    var opt := Translate(client.value, value);
    if opt.Err? {
      return Err(opt.error);
    }
    r := Ok(if opt.value.Some? then opts + [opt.value.value] else opts);
  }

  /** The loop over the sorted keys. */
  method TakeKeys(security: F.FranzSecurity, keys: seq<string>, config: map<string, string>)
    returns (r: Result<seq<KgoOption>, OptionError>)
    requires forall i :: 0 <= i < |keys| ==> keys[i] in config
    requires security.fields == map[] && !security.sawKey
    modifies security
    ensures match r
      case Err(e) => Walk(keys, config) == Err(e)
      case Ok(opts) => Walk(keys, config) == Ok(Walked(opts, security.fields, security.sawKey))
  {
    var opts: seq<KgoOption> := [];
    for i := 0 to |keys|
      invariant Walk(keys[..i], config) == Ok(Walked(opts, security.fields, security.sawKey))
    {
      assert keys[..i + 1][..i] == keys[..i];
      var taken := TakeKey(security, opts, keys[i], config[keys[i]]);
      if taken.Err? {
        WalkStops(keys, i + 1, config);
        return Err(taken.error);
      }
      opts := taken.value;
    }
    assert keys[..|keys|] == keys;
    r := Ok(opts);
  }

  /** franzKgoOpts. */
  method FranzKgoOpts(config: map<string, string>, w: F.World) returns (r: Result<KgoOptions, OptionError>)
    ensures r == Translated(config, w)
  {
    var keys := SortKeys(config);
    if keys != [] { assert keys[0] in config; }
    if |config| == 0 {
      return Ok(KgoOptions([], F.Wiring(None, None)));
    }
    var security := new F.FranzSecurity();
    var taken := TakeKeys(security, keys, config);
    if taken.Err? {
      return Err(taken.error);
    }
    var wiring := F.Build(security.fields, security.sawKey, w);
    if wiring.Err? {
      return Err(BadSecurity(wiring.error));
    }
    return Ok(KgoOptions(taken.value, wiring.value));
  }

  lemma {:induction false} WalkStops(keys: seq<string>, n: nat, config: map<string, string>)
    requires n <= |keys| && (forall i :: 0 <= i < |keys| ==> keys[i] in config) && Walk(keys[..n], config).Err?
    ensures Walk(keys, config) == Walk(keys[..n], config)
    decreases |keys|
  {
    if n < |keys| {
      assert keys[..|keys| - 1][..n] == keys[..n];
      WalkStops(keys[..|keys| - 1], n, config);
    } else {
      assert keys[..n] == keys;
    }
  }
}
