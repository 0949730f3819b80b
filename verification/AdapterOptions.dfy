/** The options the adapter takes out of the configuration before the table sees it, the guard that
    runs first, and the three together. */
module AdapterOptions {
  import opened Common
  import opened Text
  import opened SecurityKeys
  import opened GoNumbers
  import opened OptionTable
  import opened OptionAccounting
  import opened OptionNames
  import F = FranzSecurity
  import B = BridgeConfig
  import ConfigJson

  const MINUTE := 60 * NANOS_PER_SECOND
  const MAX_BAIL_AFTER := 60 * MINUTE
  const MAX_BACKOFF := 5 * NANOS_PER_SECOND
  const DEFAULT_REBALANCE := 60 * NANOS_PER_SECOND
  const DEFAULT_DRAIN := 20 * NANOS_PER_SECOND

  datatype Level = NoLevel | ErrorLevel | WarnLevel | InfoLevel | DebugLevel

  datatype AdapterOption = WithBailAfter(nanos: int) | WithLogInterval(nanos: int) | WithBackoff(nanos: int)

  function LevelOf(value: string): Option<Level> {
    if value == "none" then Some(NoLevel)
    else if value == "error" then Some(ErrorLevel)
    else if value == "warn" then Some(WarnLevel)
    else if value == "info" then Some(InfoLevel)
    else if value == "debug" then Some(DebugLevel)
    else None
  }

  function BailAfterOf(value: string): Option<AdapterOption> {
    match NonNegativeMillisOption(value)
    case None => None
    case Some(d) => if d != 0 && (d < MINUTE || d > MAX_BAIL_AFTER) then None else Some(WithBailAfter(d))
  }

  function LogIntervalOf(value: string): Option<AdapterOption> {
    match MillisOption(value)
    case None => None
    case Some(d) => Some(WithLogInterval(d))
  }

  function BackoffOf(value: string): Option<AdapterOption> {
    match NonNegativeMillisOption(value)
    case None => None
    case Some(d) => if d > MAX_BACKOFF then None else Some(WithBackoff(d))
  }

  /** What one of the three poll-error keys yields. */
  function PollOption(k: AdapterKey, value: string): Option<AdapterOption>
    requires !k.LogLevel?
  {
    match k
    case BailAfter => BailAfterOf(value)
    case LogInterval => LogIntervalOf(value)
    case Backoff => BackoffOf(value)
  }

  /** The duration an option carries is the one its text says in milliseconds. */
  predicate MeansItsText(value: string, nanos: int) {
    var ms := ParseInt(value, MAX_INT64);
    ms.Some? && nanos == ms.value * NANOS_PER_MILLI
  }

  /** What the key's own range check sees: the product after it has wrapped. */
  function Wrapped(value: string): int {
    match ParseInt(value, MAX_INT64)
    case None => 0
    case Some(ms) => Wrap64(ms * NANOS_PER_MILLI)
  }

  /** The text is no 64-bit integer, or its nanoseconds fit in 64 bits. */
  predicate NanosAreExact(value: string) {
    var ms := ParseInt(value, MAX_INT64);
    ms.Some? ==> ms.value <= LONGEST_MILLIS
  }

  /** A poll-error value never silently changes its meaning, the source says: it is refused or
      taken as what it says. That holds exactly when its nanoseconds fit in 64 bits or the
      wrapped product fails the key's range check. For every text of the bail delay: */
  lemma BailAfterNeverChangesExactly(value: string)
    ensures (BailAfterOf(value).None? || MeansItsText(value, BailAfterOf(value).value.nanos)) <==>
      NanosAreExact(value) || (Wrapped(value) != 0 && !(MINUTE <= Wrapped(value) <= MAX_BAIL_AFTER))
  {
    WrapIsExactForTexts(value);
  }

  /** Of the pause after a broker error, whose check has no lower bound: */
  lemma BackoffNeverChangesExactly(value: string)
    ensures (BackoffOf(value).None? || MeansItsText(value, BackoffOf(value).value.nanos)) <==>
      NanosAreExact(value) || Wrapped(value) > MAX_BACKOFF
  {
    WrapIsExactForTexts(value);
  }

  /** And of the log interval, which has no check after the multiplication. */
  lemma LogIntervalNeverChangesExactly(value: string)
    ensures (LogIntervalOf(value).None? || MeansItsText(value, LogIntervalOf(value).value.nanos)) <==>
      NanosAreExact(value)
  {
    WrapIsExactForTexts(value);
  }

  /** For the values the typed setters print, the condition is one on the number of milliseconds:
      it fits, or it is beyond 64 bits itself, or its wrapped nanoseconds fail the check. */
  lemma TypedPollValuesNeverChangeExactly(ms: nat)
    ensures var value, own, wrapped := Decimal(ms), ms * NANOS_PER_MILLI, Wrap64(ms * NANOS_PER_MILLI);
      var plain := ms <= LONGEST_MILLIS || ms > MAX_INT64;
      && (BailAfterOf(value) in {None, Some(WithBailAfter(own))} <==>
            plain || (wrapped != 0 && !(MINUTE <= wrapped <= MAX_BAIL_AFTER)))
      && (BackoffOf(value) in {None, Some(WithBackoff(own))} <==> plain || wrapped > MAX_BACKOFF)
      && (LogIntervalOf(value) in {None, Some(WithLogInterval(own))} <==> plain)
  {
    MillisKeepTheirMeaning(ms);
    PrintedIntIsReadBack(ms, MAX_INT64);
  }

  lemma WrapIsExactForTexts(value: string)
    ensures var ms := ParseInt(value, MAX_INT64);
      ms.Some? && ms.value >= 0 ==>
        (Wrap64(ms.value * NANOS_PER_MILLI) == ms.value * NANOS_PER_MILLI <==> ms.value <= LONGEST_MILLIS)
  {
    var ms := ParseInt(value, MAX_INT64);
    if ms.Some? && ms.value >= 0 {
      NanosFit(ms.value);
      WrapIsExactOnlyInRange(ms.value * NANOS_PER_MILLI);
    }
  }

  /** The typed values that are taken with their own meaning are exactly those of the documented
      ranges: a bail delay that is zero or between one minute and one hour, a pause of at most
      5 s, a positive log interval of at most some 292 years. */
  lemma PollValuesKeepTheirMeaning(ms: nat)
    ensures BailAfterOf(Decimal(ms)) == Some(WithBailAfter(ms * NANOS_PER_MILLI)) <==>
      ms == 0 || 60_000 <= ms <= 3_600_000
    ensures BackoffOf(Decimal(ms)) == Some(WithBackoff(ms * NANOS_PER_MILLI)) <==> ms <= 5_000
    ensures LogIntervalOf(Decimal(ms)) == Some(WithLogInterval(ms * NANOS_PER_MILLI)) <==>
      1 <= ms <= LONGEST_MILLIS
  {
    MillisKeepTheirMeaning(ms);
  }

  lemma BailAfterOfWrapped(ms: nat, d: int)
    requires ms <= MAX_INT64 && Wrap64(ms * NANOS_PER_MILLI) == d
    requires d == 0 || MINUTE <= d <= MAX_BAIL_AFTER
    ensures BailAfterOf(Decimal(ms)) == Some(WithBailAfter(d))
  {
    PrintedIntIsReadBack(ms, MAX_INT64);
  }

  /** Values that change their meaning: a delay of over 584 years is taken as a little over one
      minute, and 2^58 ms switches the bail off. */
  lemma BailAfterCanChangeItsMeaning()
    ensures BailAfterOf(Decimal(18_446_744_133_710)) == Some(WithBailAfter(60_000_448_384))
    ensures BailAfterOf(Decimal(288_230_376_151_711_744)) == Some(WithBailAfter(0))
  {
    BailAfterOfWrapped(18_446_744_133_710, 60_000_448_384);
    BailAfterOfWrapped(288_230_376_151_711_744, 0);
  }

  /** The first value past the limit passes as a negative pause, and as a negative log interval. */
  lemma NegativeDurationsAreAccepted()
    ensures BackoffOf(Decimal(LONGEST_MILLIS + 1)) == Some(WithBackoff(-9_223_372_036_854_551_616))
    ensures LogIntervalOf(Decimal(LONGEST_MILLIS + 1)) == Some(WithLogInterval(-9_223_372_036_854_551_616))
  {
    PrintedIntIsReadBack(LONGEST_MILLIS + 1, MAX_INT64);
    assert (LONGEST_MILLIS + 1) * NANOS_PER_MILLI == TWO_64 - 9_223_372_036_854_551_616;
  }

  // -- Taking keys out of the map -----------------------------------------------------------------

  class OptionMap {
    var m: map<string, string>

    constructor (config: map<string, string>)
      ensures m == config
    {
      m := config;
    }

    /** Look up and delete. */
    method Take(name: string) returns (r: Option<string>)
      modifies this
      ensures r == if name in old(m) then Some(old(m)[name]) else None
      ensures m == old(m) - {name}
    {
      if name in m {
        r := Some(m[name]);
        m := m - {name};
      } else {
        r := None;
      }
    }
  }

  function LevelIn(m: map<string, string>): Result<Option<Level>, OptionError> {
    var name := AdapterName(LogLevel);
    if name !in m then Ok(None)
    else
      match LevelOf(m[name])
      case None => Err(BadValue(name))
      case Some(level) => Ok(Some(level))
  }

  /** popClientLogLevel. */
  method PopClientLogLevel(config: OptionMap) returns (r: Result<Option<Level>, OptionError>)
    modifies config
    ensures r == LevelIn(old(config.m)) && config.m == old(config.m) - {AdapterName(LogLevel)}
  {
    var raw := config.Take(AdapterName(LogLevel));
    if raw.None? { return Ok(None); }
    var level := LevelOf(raw.value);
    if level.None? { return Err(BadValue(AdapterName(LogLevel))); }
    r := Ok(Some(level.value));
  }

  /** The option of one poll-error key, none when the key is absent. */
  function PollOptionIn(k: AdapterKey, m: map<string, string>): Result<seq<AdapterOption>, OptionError>
    requires !k.LogLevel?
  {
    var name := AdapterName(k);
    if name !in m then Ok([])
    else
      match PollOption(k, m[name])
      case None => Err(BadValue(name))
      case Some(opt) => Ok([opt])
  }

  /** The options of the three keys in their fixed order, or the first bad one. */
  function PollOptionsIn(m: map<string, string>): Result<seq<AdapterOption>, OptionError> {
    match PollOptionIn(BailAfter, m)
    case Err(e) => Err(e)
    case Ok(a) =>
      match PollOptionIn(LogInterval, m)
      case Err(e) => Err(e)
      case Ok(b) =>
        match PollOptionIn(Backoff, m)
        case Err(e) => Err(e)
        case Ok(c) => Ok(a + b + c)
  }

  /** The names of the adapter keys differ, so taking one leaves the others. */
  lemma AdapterNamesDiffer(a: AdapterKey, b: AdapterKey)
    requires AdapterName(a) == AdapterName(b)
    ensures a == b
  {
    assert |AdapterName(BailAfter)| == 31 && |AdapterName(LogInterval)| == 33 && |AdapterName(Backoff)| == 28;
    assert |AdapterName(LogLevel)| == 23;
  }

  /** One of the three blocks of popPollErrorOptions. */
  method PopPollOption(config: OptionMap, k: AdapterKey) returns (r: Result<seq<AdapterOption>, OptionError>)
    requires !k.LogLevel?
    modifies config
    ensures r == PollOptionIn(k, old(config.m)) && config.m == old(config.m) - {AdapterName(k)}
  {
    var raw := config.Take(AdapterName(k));
    if raw.None? { return Ok([]); }
    var opt := PollOption(k, raw.value);
    if opt.None? { return Err(BadValue(AdapterName(k))); }
    r := Ok([opt.value]);
  }

  lemma PollOptionElsewhere(k: AdapterKey, other: AdapterKey, m: map<string, string>)
    requires !k.LogLevel? && k != other
    ensures PollOptionIn(k, m - {AdapterName(other)}) == PollOptionIn(k, m)
  {
    if AdapterName(k) == AdapterName(other) { AdapterNamesDiffer(k, other); }
  }

  /** popPollErrorOptions. */
  method PopPollErrorOptions(config: OptionMap) returns (r: Result<seq<AdapterOption>, OptionError>)
    modifies config
    ensures r == PollOptionsIn(old(config.m))
    ensures r.Ok? ==>
      config.m == old(config.m) - {AdapterName(BailAfter), AdapterName(LogInterval), AdapterName(Backoff)}
  {
    PollOptionElsewhere(LogInterval, BailAfter, config.m);
    PollOptionElsewhere(Backoff, BailAfter, config.m);
    var opts: seq<AdapterOption> := [];
    var bailAfter := PopPollOption(config, BailAfter);
    if bailAfter.Err? { return bailAfter; }
    opts := opts + bailAfter.value;
    PollOptionElsewhere(Backoff, LogInterval, config.m);
    var interval := PopPollOption(config, LogInterval);
    if interval.Err? { return interval; }
    opts := opts + interval.value;
    var backoff := PopPollOption(config, Backoff);
    if backoff.Err? { return backoff; }
    opts := opts + backoff.value;
    assert [] + bailAfter.value == bailAfter.value;
    r := Ok(opts);
  }

  // -- The guard ---------------------------------------------------------------------------------------

  function EffectiveDrain(drain: int): int {
    if drain <= 0 then DEFAULT_DRAIN else drain
  }

  function RebalanceName(): string {
    ClientName(RebalanceTimeout)
  }

  /** checkRebalanceAboveDrain; a value it cannot parse is left for the table to report. */
  function RebalanceAboveDrain(config: map<string, string>, drain: int): bool {
    if RebalanceName() !in config then DEFAULT_REBALANCE > EffectiveDrain(drain)
    else
      match MillisOption(config[RebalanceName()])
      case None => true
      case Some(d) => d > EffectiveDrain(drain)
  }

  // -- The bandwidth intervals ------------------------------------------------------------------------------

  const MIN_STATS := NANOS_PER_SECOND
  const MAX_STATS := 12 * 60 * MINUTE

  /** What the duration parser of the Go library makes of a text: nanoseconds, or a refusal. */
  type DurationParser = string -> Option<int>

  /** The intervals; zero stands for the engine's default. */
  datatype Intervals = Intervals(stats: int, flush: int)

  function StatsOf(text: string, parse: DurationParser): Option<int> {
    if text == "" then Some(0)
    else
      match parse(text)
      case None => None
      case Some(d) => if MIN_STATS <= d <= MAX_STATS then Some(d) else None
  }

  function FlushOf(text: string, parse: DurationParser): Option<int> {
    if text == "" then Some(0)
    else
      match parse(text)
      case None => None
      case Some(d) => if d <= 0 then None else Some(d)
  }

  /** parseBandwidth. */
  function ParseBandwidth(b: Option<B.Bandwidth>, parse: DurationParser): Result<Intervals, OptionError> {
    match b
    case None => Ok(Intervals(0, 0))
    case Some(texts) =>
      match StatsOf(texts.statsInterval, parse)
      case None => Err(BadInterval("statsInterval"))
      case Some(stats) =>
        match FlushOf(texts.flushInterval, parse)
        case None => Err(BadInterval("flushInterval"))
        case Some(flush) => Ok(Intervals(stats, flush))
  }

  /** The parser reads a count of milliseconds as the host prints it, and refuses one whose
      nanoseconds do not fit in 64 bits. */
  ghost predicate ReadsMillis(parse: DurationParser) {
    forall ms: nat :: parse(Decimal(ms) + "ms") ==
      if ms <= LONGEST_MILLIS then Some(ms * NANOS_PER_MILLI) else None
  }

  function NanosOf(ms: Option<nat>): int {
    if ms.None? then 0 else ms.value * NANOS_PER_MILLI
  }

  /** The intervals the host sets arrive as what they are exactly when the cadence is between one
      second and twelve hours and the flush interval is positive and fits in 64 bits; they are
      refused otherwise, and never arrive as anything else. */
  lemma IntervalsArrive(c: ConfigJson.Inputs, parse: DurationParser)
    requires ReadsMillis(parse)
    ensures ParseBandwidth(B.Meant(c).bandwidth, parse) ==
      if c.statsInterval.Some? && !(1_000 <= c.statsInterval.value <= 43_200_000) then
        Err(BadInterval("statsInterval"))
      else if c.flushInterval.Some? && !(1 <= c.flushInterval.value <= LONGEST_MILLIS) then
        Err(BadInterval("flushInterval"))
      else Ok(Intervals(NanosOf(c.statsInterval), NanosOf(c.flushInterval)))
  {
    IntervalIsRead(c.statsInterval, parse);
    IntervalIsRead(c.flushInterval, parse);
  }

  lemma IntervalIsRead(ms: Option<nat>, parse: DurationParser)
    requires ReadsMillis(parse)
    ensures StatsOf(B.IntervalText(ms), parse) ==
      if ms.Some? && !(1_000 <= ms.value <= 43_200_000) then None else Some(NanosOf(ms))
    ensures FlushOf(B.IntervalText(ms), parse) ==
      if ms.Some? && !(1 <= ms.value <= LONGEST_MILLIS) then None else Some(NanosOf(ms))
  {
    if ms.Some? { assert B.IntervalText(ms) == Decimal(ms.value) + "ms"; }
  }

  // -- All of it ------------------------------------------------------------------------------------------

  datatype FranzOptions = FranzOptions(
    intervals: Intervals, level: Option<Level>, poll: seq<AdapterOption>, kgo: KgoOptions)

  /** What the adapter is given besides the option map: the engine's drain timeout, the bandwidth
      object, the duration parser and the outside world of the security unit. */
  datatype Context = Context(
    drain: int, bandwidth: Option<B.Bandwidth>, parse: DurationParser, w: F.World)

  predicate IsAdapterName(name: string) {
    || name == AdapterName(LogLevel) || name == AdapterName(BailAfter) || name == AdapterName(LogInterval)
    || name == AdapterName(Backoff)
  }

  /** What is left for the table. */
  function ForTheTable(config: map<string, string>): map<string, string> {
    map name | name in config && !IsAdapterName(name) :: config[name]
  }

  ghost function Outcome(config: map<string, string>, x: Context): Result<FranzOptions, OptionError> {
    if !RebalanceAboveDrain(config, x.drain) then Err(DrainTooLong)
    else
      match ParseBandwidth(x.bandwidth, x.parse)
      case Err(e) => Err(e)
      case Ok(intervals) =>
        match LevelIn(config)
        case Err(e) => Err(e)
        case Ok(level) =>
          match PollOptionsIn(config)
          case Err(e) => Err(e)
          case Ok(poll) =>
            match Translated(ForTheTable(config), x.w)
            case Err(e) => Err(e)
            case Ok(kgo) => Ok(FranzOptions(intervals, level, poll, kgo))
  }

  /** The option part of buildFranzConsumer. */
  method BuildFranzOptions(config: OptionMap, x: Context) returns (r: Result<FranzOptions, OptionError>)
    modifies config
    ensures r == Outcome(old(config.m), x)
  {
    ghost var start := config.m;
    if !RebalanceAboveDrain(config.m, x.drain) {
      return Err(DrainTooLong);
    }
    var intervals := ParseBandwidth(x.bandwidth, x.parse);
    if intervals.Err? { return Err(intervals.error); }
    var level := PopClientLogLevel(config);
    if level.Err? { return Err(level.error); }
    LevelIsSeparate(start);
    var poll := PopPollErrorOptions(config);
    if poll.Err? { return Err(poll.error); }
    assert config.m == ForTheTable(start);
    var kgo := FranzKgoOpts(config.m, x.w);
    if kgo.Err? { return Err(kgo.error); }
    r := Ok(FranzOptions(intervals.value, level.value, poll.value, kgo.value));
  }

  lemma LevelIsSeparate(m: map<string, string>)
    ensures PollOptionsIn(m - {AdapterName(LogLevel)}) == PollOptionsIn(m)
  {
    if AdapterName(BailAfter) == AdapterName(LogLevel) { AdapterNamesDiffer(BailAfter, LogLevel); }
    if AdapterName(LogInterval) == AdapterName(LogLevel) { AdapterNamesDiffer(LogInterval, LogLevel); }
    if AdapterName(Backoff) == AdapterName(LogLevel) { AdapterNamesDiffer(Backoff, LogLevel); }
  }

  // -- Every key is accounted for ------------------------------------------------------------------------

  predicate AdapterValueFine(name: string, value: string) {
    if name == AdapterName(LogLevel) then LevelOf(value).Some?
    else if name == AdapterName(BailAfter) then BailAfterOf(value).Some?
    else if name == AdapterName(LogInterval) then LogIntervalOf(value).Some?
    else BackoffOf(value).Some?
  }

  /** The one reader a key has finds its value in order; a reserved or unknown key has none. */
  predicate Fine(name: string, value: string) {
    if IsAdapterName(name) then AdapterValueFine(name, value) else Accepted(name, value)
  }

  lemma AdapterReadersSucceed(config: map<string, string>)
    ensures LevelIn(config).Ok? && PollOptionsIn(config).Ok? <==>
      forall name :: name in config && IsAdapterName(name) ==> AdapterValueFine(name, config[name])
  {
    if AdapterName(LogInterval) == AdapterName(BailAfter) { AdapterNamesDiffer(LogInterval, BailAfter); }
    if AdapterName(Backoff) == AdapterName(BailAfter) { AdapterNamesDiffer(Backoff, BailAfter); }
    if AdapterName(Backoff) == AdapterName(LogInterval) { AdapterNamesDiffer(Backoff, LogInterval); }
    if AdapterName(BailAfter) == AdapterName(LogLevel) { AdapterNamesDiffer(BailAfter, LogLevel); }
    if AdapterName(LogInterval) == AdapterName(LogLevel) { AdapterNamesDiffer(LogInterval, LogLevel); }
    if AdapterName(Backoff) == AdapterName(LogLevel) { AdapterNamesDiffer(Backoff, LogLevel); }
  }

  /** The options are built exactly when the rebalance timeout exceeds the drain budget, the
      bandwidth intervals are in range, every single key is read by its one reader without a
      complaint, and the security keys fit together. */
  lemma EveryKeyIsAccountedFor(config: map<string, string>, x: Context)
    ensures var rest := ForTheTable(config);
      Outcome(config, x).Ok? <==>
        && RebalanceAboveDrain(config, x.drain)
        && ParseBandwidth(x.bandwidth, x.parse).Ok?
        && (forall name :: name in config ==> Fine(name, config[name]))
        && F.Build(FieldsIn(rest), HasSecurityKey(rest), x.w).Ok?
  {
    var rest := ForTheTable(config);
    TranslationIsOfTheMap(rest, x.w);
    AdapterReadersSucceed(config);
    if forall name :: name in config ==> Fine(name, config[name]) {
      forall name | name in rest ensures Accepted(name, rest[name]) { assert Fine(name, config[name]); }
      forall name | name in config && IsAdapterName(name) ensures AdapterValueFine(name, config[name]) {
        assert Fine(name, config[name]);
      }
    }
    if (forall name :: name in rest ==> Accepted(name, rest[name]))
      && (forall name :: name in config && IsAdapterName(name) ==> AdapterValueFine(name, config[name])) {
      forall name | name in config ensures Fine(name, config[name]) {
        if !IsAdapterName(name) { assert name in rest; }
      }
    }
  }

  // -- The adapter's own keys, by name ---------------------------------------------------------------------

  lemma LevelWords(value: string)
    ensures LevelOf(value) == Some(NoLevel) <==> value == "none"
    ensures LevelOf(value) == Some(ErrorLevel) <==> value == "error"
    ensures LevelOf(value) == Some(WarnLevel) <==> value == "warn"
    ensures LevelOf(value) == Some(InfoLevel) <==> value == "info"
    ensures LevelOf(value) == Some(DebugLevel) <==> value == "debug"
  {
  }

  /** The client's log level is the one that is named, and unset when none is. */
  lemma LevelByName(config: map<string, string>, x: Context, name: string)
    requires Outcome(config, x).Ok? && name == "llingr.client.log.level"
    ensures var level := Outcome(config, x).value.level;
      && (level == None <==> name !in config)
      && (level == Some(NoLevel) <==> Says(config, name, "none"))
      && (level == Some(ErrorLevel) <==> Says(config, name, "error"))
      && (level == Some(WarnLevel) <==> Says(config, name, "warn"))
      && (level == Some(InfoLevel) <==> Says(config, name, "info"))
      && (level == Some(DebugLevel) <==> Says(config, name, "debug"))
  {
    assert name == AdapterName(LogLevel);
    if name in config { LevelWords(config[name]); }
  }

  lemma PollOptionOf(config: map<string, string>, k: AdapterKey, name: string)
    requires !k.LogLevel? && name == AdapterName(k) && PollOptionIn(k, config).Ok?
    ensures PollOptionIn(k, config).value ==
      if name in config then [PollOption(k, config[name]).value] else []
  {
  }

  /** Each poll-error option carries the milliseconds of its own name, in nanoseconds. */
  lemma PollOptionsByName(config: map<string, string>, x: Context, bail: string, log: string, backoff: string, d: int)
    requires Outcome(config, x).Ok?
    requires bail == "llingr.poll.error.bail.after.ms" && log == "llingr.poll.error.log.interval.ms"
    requires backoff == "llingr.poll.error.backoff.ms"
    ensures var poll := Outcome(config, x).value.poll;
      && (WithBailAfter(d) in poll <==> bail in config && NonNegativeMillisOption(config[bail]) == Some(d))
      && (WithLogInterval(d) in poll <==> log in config && MillisOption(config[log]) == Some(d))
      && (WithBackoff(d) in poll <==> backoff in config && NonNegativeMillisOption(config[backoff]) == Some(d))
  {
    assert PollOptionsIn(config).Ok?;
    PollOptionOf(config, BailAfter, bail);
    PollOptionOf(config, LogInterval, log);
    PollOptionOf(config, Backoff, backoff);
    assert Outcome(config, x).value.poll ==
      PollOptionIn(BailAfter, config).value + PollOptionIn(LogInterval, config).value
      + PollOptionIn(Backoff, config).value;
  }

  /** Length and ninth character. */
  lemma ShapeOfAdapterNames(a: AdapterKey)
    ensures var n := AdapterName(a);
      |n| > 8 && (|n|, n[8]) in {(23, 'l'), (28, 'o'), (31, 'o'), (33, 'o')}
  {
  }

  lemma NoClientOutlineIsAnAdapters(k: ClientKey)
    ensures (Outline(k).0, Outline(k).1) !in {(23, 'l'), (28, 'o'), (31, 'o'), (33, 'o')}
  {
  }

  /** Every key of the table reaches it. */
  lemma TableKeysSurvive(config: map<string, string>, k: ClientKey, name: string)
    requires name == ClientName(k)
    ensures !IsAdapterName(name)
    ensures name in ForTheTable(config) <==> name in config
    ensures name in config ==> ForTheTable(config)[name] == config[name]
  {
    NamesHaveOutlines(k);
    NoClientOutlineIsAnAdapters(k);
    ShapeOfAdapterNames(LogLevel);
    ShapeOfAdapterNames(BailAfter);
    ShapeOfAdapterNames(LogInterval);
    ShapeOfAdapterNames(Backoff);
  }

  // -- The guard and the table agree -----------------------------------------------------------------------

  lemma RebalanceOptionsBuilt(config: map<string, string>, x: Context, d: int)
    requires Outcome(config, x).Ok?
    ensures DurationOption(RebalanceTimeout, d) in Outcome(config, x).value.kgo.opts <==>
      Millis(config, RebalanceName(), d)
  {
    TableKeysSurvive(config, RebalanceTimeout, RebalanceName());
    DurationIsSet(ForTheTable(config), x.w, RebalanceTimeout, RebalanceName(), d);
  }

  lemma RebalanceValueParses(config: map<string, string>, x: Context)
    requires Outcome(config, x).Ok? && RebalanceName() in config
    ensures MillisOption(config[RebalanceName()]).Some?
  {
    var name := RebalanceName();
    TableKeysSurvive(config, RebalanceTimeout, name);
    TranslationIsOfTheMap(ForTheTable(config), x.w);
    assert Accepted(name, ForTheTable(config)[name]);
    TableTakes(RebalanceTimeout, name, config[name]);
  }

  /** Whenever the options are built, the rebalance timeout the client really gets, set or
      default, exceeds the drain budget, 20 s when none is set: also for values the guard could not
      parse, because those the table refuses. */
  lemma ClientRebalanceExceedsDrain(config: map<string, string>, x: Context)
    requires Outcome(config, x).Ok?
    ensures var opts, drain := Outcome(config, x).value.kgo.opts, if x.drain <= 0 then 20_000_000_000 else x.drain;
      && (forall d :: DurationOption(RebalanceTimeout, d) in opts ==> d > drain)
      && ((forall d :: DurationOption(RebalanceTimeout, d) !in opts) ==> 60_000_000_000 > drain)
  {
    var opts := Outcome(config, x).value.kgo.opts;
    forall d | DurationOption(RebalanceTimeout, d) in opts ensures d > EffectiveDrain(x.drain) {
      RebalanceOptionsBuilt(config, x, d);
    }
    if RebalanceName() in config {
      RebalanceValueParses(config, x);
      RebalanceOptionsBuilt(config, x, MillisOption(config[RebalanceName()]).value);
    }
  }

  /** And the guard alone refuses exactly the configurations in which it does not: those whose
      rebalance timeout can be read, or is left out, and is at most the drain budget. */
  lemma GuardRefusesExactly(config: map<string, string>, x: Context)
    ensures var drain := if x.drain <= 0 then 20_000_000_000 else x.drain;
      Outcome(config, x) == Err(DrainTooLong) <==>
        if RebalanceName() in config then
          MillisOption(config[RebalanceName()]).Some? && MillisOption(config[RebalanceName()]).value <= drain
        else 60_000_000_000 <= drain
  {
    if RebalanceAboveDrain(config, x.drain) { NothingElseSaysDrainTooLong(config, x); }
  }

  lemma NothingElseSaysDrainTooLong(config: map<string, string>, x: Context)
    requires RebalanceAboveDrain(config, x.drain)
    ensures Outcome(config, x) != Err(DrainTooLong)
  {
    TranslatedNeverSaysDrainTooLong(ForTheTable(config), x.w);
  }

  lemma TranslatedNeverSaysDrainTooLong(config: map<string, string>, w: F.World)
    ensures Translated(config, w) != Err(DrainTooLong)
  {
    WalkNeverSaysDrainTooLong(KeysInOrder(config), config);
  }

  lemma {:induction false} WalkNeverSaysDrainTooLong(keys: seq<string>, config: map<string, string>)
    requires forall i :: 0 <= i < |keys| ==> keys[i] in config
    ensures Walk(keys, config) != Err(DrainTooLong)
  {
    if keys != [] { WalkNeverSaysDrainTooLong(keys[..|keys| - 1], config); }
  }
}
