# Verification of the llingr Kafka bridge

A Rust crate hosts a Go engine for consuming Kafka. Between them lies a C boundary: the host
configures, starts, parks on and stops the engine through exported functions, and the engine calls
back into the host from its own threads. This project models that bridge in Dafny and proves what
its code and its comments promise.

Check it with `dafny verify dfyconfig.toml`.

## The parts

- **Lifecycle** (`Lifecycle*.dfy`). `llingr_init`, `llingr_run`, `llingr_stop`,
  `llingr_emergency_stop`, `llingr_take_snapshot` and the engine's shutdown notification, as a
  transition system. Every thread owns a stack of calls in progress, one step is one atomic action,
  and a thread that is outside the bridge (in the engine, the adapter build, a host callback or the
  broker cleanup) may call back in. A log of events is carried as history. All results hold in every
  state of every schedule of any number of threads. The engine's contract is one guard: it notifies
  at most once, with a nil or a non-nil reason, on any thread that is outside the bridge, and never
  before init has published its state (`bridge/main_test.go:18-41` and `bridge/main_test.go:284-300`
  show both shapes). `LifecycleProgress.dfy` shows that no winning stop and no notification gets
  lost, `LifecycleCompletion.dfy` that after init no call is ever stuck, `LifecycleExit.dfy` when
  run returning is the last thing the host sees, `LifecyclePeeks.dfy` that emergency stops and
  snapshots go through, and `LifecycleContexts.dfy` that no context leaks.
- **Publication** (`Publication.dfy`). `Builder::build`: the init lock, the handler pointer that
  trampolines read without a lock, its roll-back after a failed init, and the frees.
- **Callbacks** (`Callbacks.dfy`). Copy-on-write registration, lock-free loads and the seal.
- **Marshalling** (`Arena.dfy`, `Utf8.dfy`, `Truncation.dfy`). Headers packed into one block by a
  moving cursor and read back by the other language; error text cut at a character boundary by two
  loops that must agree.
- **ABI lock** (`Fnv.dfy`, `StripComments.dfy`, `SignatureStatements.dfy`, `AbiLock.dfy`,
  `LockFile.dfy`). The comment scanner, the signature and which statements it keeps, 64-bit FNV-1a,
  the lock file and the decision taken from it.
- **Configuration**. The typed builder and what a chain of its setters leaves behind (`Options.dfy`,
  `SetterLaws.dfy`, `PrintedSetters.dfy`, `AskedFor.dfy`), the merge, the JSON printer and the parser
  on the other side by RFC 8259, sections 2, 4, 6 and 7 (`Pairs.dfy`, `Json.dfy`, `ConfigJson.dfy`,
  `BridgeConfig.dfy`, `DemuxNames.dfy`), the option table (`ListCodecs.dfy`, `GoNumbers.dfy`,
  `OptionTable.dfy`, `OptionAccounting.dfy`, `OptionNames.dfy`, `AdapterOptions.dfy`) and the cross-key
  security validator (`SecurityKeys.dfy`, `FranzSecurity.dfy`, `SecurityExactly.dfy`,
  `SecurityNames.dfy`), separately and composed (`SecurityComposition.dfy`, `TypedSecurity.dfy`,
  `EndToEnd.dfy`). The files called *Names* and *Printed* say key by key, by the names that cross the
  boundary, which argument arrives where.
- **Token cache** (`TokenCache.dfy`). The OIDC access-token cache over every run of requests.

`Common.dfy` and `Text.dfy` hold shared datatypes and string functions; `Schedules.dfy` holds runs and
reachability for the three transition systems.

Loops of the source are methods proved against a specification function or predicate; records that
the source updates in place are classes; the protocols are state machines.

## Where the code and its comments part

- `bridge/main.go:948-950` says that run returning is the last event the host observes.
  `LifecycleWitnesses.RunMayReturnBeforeTheHandler` is a schedule in which run returns 0 while the
  host's shutdown handler is still running and the cleanup has not begun. The promise holds, whatever
  happens next, if and only if the handler, and on an emergency the cleanup, are done when the parked
  run is about to return (`LifecycleExit.ReturnIsLastExactly`). Which of the two it is follows from
  the signal that closed the channel: the notification's own signal always comes after them, so only
  a stop whose Shutdown has ended can release a run too early (`LifecycleExit.TheCloserDecides`,
  `LifecycleExit.OnlyAWinnerReleasesEarly`), and not even that stop when the engine delivers the
  notification inside its Shutdown (`LifecycleExit.NestedNoticeEndsFirst`,
  `LifecycleExit.NestedNoticeKeepsThePromise`).
- `bridge/main.go:453` opens the gate on every run, so Shutdowns are counted against openings and
  not against one: `LifecycleTheorems.ShutdownsNeverExceedOpenings` is the bound and
  `LifecycleWitnesses.ShutdownsReachTheOpenings` reaches it for every number of openings.
- A log handler that calls `llingr_init` while init logs deadlocks on `initMu`
  (`LifecycleWitnesses.InitFromTheLogHandlerDeadlocks`); it is the only call that ever waits for
  itself (`LifecycleTheorems.OnlyInitReentryWaitsForItself`).
- A failed build leaves its bandwidth callback registered (`src/engine.rs:383-385`), so a retry
  without metrics still collects bandwidth (`Publication.RetryWithoutMetricsKeepsBandwidth`);
  `Publication.BandwidthMatchesThisBuild` is the exact condition.
- `bridge/adapter_franz.go:176-179` promises that a configured poll-error value never silently
  changes its meaning. Milliseconds are multiplied into 64-bit nanoseconds after the range check on
  the number, so a value above 292 years wraps before the key's own check sees it. A value is refused
  or taken as what it says exactly when its nanoseconds fit in 64 bits or the wrapped product fails
  that check: for the bail delay most values above the limit are refused, but some arrive as a minute
  and 2^58 ms switches the bail off; the pause has no lower bound in its check and the log interval
  no check at all, so both take negative durations (`AdapterOptions.BailAfterNeverChangesExactly`,
  `AdapterOptions.BackoffNeverChangesExactly`, `AdapterOptions.LogIntervalNeverChangesExactly`,
  `AdapterOptions.BailAfterCanChangeItsMeaning`, `AdapterOptions.NegativeDurationsAreAccepted`).
- `bridge/franz_security.go:21-25` says that no security key is silently ignored. One can be: with
  `enable.ssl.certificate.verification=false` any value of `ssl.endpoint.identification.algorithm` is
  accepted and never looked at (`SecurityExactly.UnknownEndpointIsIgnoredExactly`,
  `SecurityExactly.SomeKeyIsIgnored`). For every other key the promise holds, because the client that
  is built explains each field (`SecurityExactly.BuildExactly`).
- The host's branch for an interior NUL in the configuration (`src/engine.rs:313-314`) is
  unreachable (`BridgeConfig.NoInteriorNul`).

## Model

| member | source | states |
|---|---|---|
| LifecycleInvariant.EveryScheduleKeepsInv | bridge/main.go:346-463 | Every state that any interleaving of init, run, stop, emergency stop, snapshot and notification reaches has lock holders inside the sections they guard, whole or hidden publications, one bearer per gate win, and a well-ordered history. |
| LifecycleTheorems.ShutdownsNeverExceedOpenings | bridge/main.go:515-538 | Engine Shutdowns started never exceed the openings of the gate by run, whatever re-enters stop. |
| LifecycleTheorems.StopBeforeOpeningIsInert | bridge/main.go:515-550 | Before any run opened the gate, no step of any stop changes shared state other than the lock it holds, so the later run stays stoppable. |
| LifecycleTheorems.StopWinsExactlyAnOpenGate | bridge/main.go:528-538 | A stop at its compare-and-swap always moves on; it wins exactly when the last gate event was an opening, and a loser returns at once having changed nothing. |
| LifecycleTheorems.NoWinWithoutReopening | bridge/main.go:528-538 | After a stop won, or the notification closed the gate, no stop wins again before a run reopens it. |
| LifecycleTheorems.CancelWaitsForShutdown | bridge/main.go:538-549 | Without an emergency the context is cancelled only by a gate winner, after that winner won, started Shutdown and saw it return or panic, in that order. |
| LifecycleTheorems.CleanupAndCloseHappenOnce | bridge/main.go:421-429 | The broker cleanup starts at most once and never after a graceful notification; the run channel is closed at most once. |
| LifecycleTheorems.CalloutsHoldNoStateLock | bridge/main.go:216-220 | A thread that holds state.mu is neither in the engine, the build, a host callback or the cleanup, nor waiting for state.mu. |
| LifecycleTheorems.StateLockIsAlwaysReleased | bridge/main.go:372-410 | The holder of state.mu is never blocked, and each of at most five steps brings its release nearer. |
| LifecycleTheorems.OnlyInitReentryWaitsForItself | bridge/main.go:368-370 | A call that waits for a lock its own thread holds is exactly an init called back in from the build or the log line of an init on that thread. |
| LifecycleTheorems.DriversAlwaysSignal | bridge/main.go:421-429 | The last step of a winning stop and of the notification is always enabled and closes the channel or finds it closed; it never finds it missing. |
| LifecycleProgress.NoDriverGetsLost | bridge/main.go:515-550 | In every state a frame of a winning stop, or of the notification, is on some stack exactly when it has started and has not yet signalled: none vanishes without releasing the runs. |
| LifecycleProgress.NoRunStaysParked | bridge/main.go:432-463 | Once a gate winner or the notification has completed, so that none of its frames is left, the channel is closed and every parked run can return 0. |
| LifecycleCompletion.EveryCallCanFinish | bridge/main.go:346-550 | After init has published there is no deadlock: a thread with no run parked on an open channel can always be brought to the end of all its calls, by steps of the calls in progress alone. |
| LifecycleExit.DriversEndWithTheirSignal | bridge/main.go:940-978 | After its signal a winning stop, or the notification, records nothing more: each signals once and last. |
| LifecycleExit.TheCloserDecides | bridge/main.go:940-1012 | The signal that closed the channel precedes every successful return of run. If it is the notification's, the handler is done and on an emergency the gate closed, handler, cleanup and cancellation came before it in that order, and nothing of the notification follows; otherwise a winner won, started Shutdown, saw it end, cancelled and signalled in that order. |
| LifecycleExit.OnlyAWinnerReleasesEarly | bridge/main.go:940-978 | A run that returns 0 with any part of the notification still to come was released by such a winner. |
| LifecycleExit.EmergencyExitOrder | bridge/main.go:940-1012 | Without a gate winner the whole notification is over, in its order, whenever run returns 0. |
| LifecycleExit.ReturnIsLastExactly | bridge/main.go:948-951 | A run about to return 0 is the last thing the host sees, in every continuation, if and only if the handler has run and on an emergency the cleanup; otherwise some continuation shows the host more. |
| LifecycleExit.NestedNoticeEndsFirst | bridge/main.go:538-550 | A notification delivered inside a winner's Shutdown, on its thread, has run its handler and signalled before that Shutdown ends, in every schedule. |
| LifecycleExit.NestedNoticeKeepsThePromise | bridge/main.go:940-978 | Then that winner never closes the channel, and when no other stop won the notification is over when run returns 0. |
| LifecycleTheorems.SnapshotsAreWhole | bridge/main.go:432-449 | Whoever saw a consumer saw the channel and the published cancel function with it. |
| LifecycleTheorems.InitPublishesOnce | bridge/main.go:368-417 | After init published, no other init builds or publishes; the published context is none that a failed build cancelled. |
| LifecycleTheorems.InitReturnsTruly | bridge/main.go:346-417 | An init returns 0 only when everything is published and sealed, -1 only when another has published, and -2, -4 or -5 only when nothing is. |
| LifecycleTheorems.InitFailuresHaveTheirCodes | bridge/main.go:372-410 | A refused init, a bad configuration, a panic and a failed build each lead to their own code. |
| LifecycleTheorems.CallsBackInExactly | bridge/main.go:216-220 | A thread may call back in exactly when it is outside the bridge. |
| LifecycleTheorems.RunReturnsTruly | bridge/main.go:432-463 | Run refuses with -1 exactly when the consumer it read was not published, without opening the gate; a failed or panicking Subscribe returns -2 or -3. |
| LifecycleContexts.NoContextLeaks | bridge/main.go:380-417 | Every context an init made is cancelled, published, or held by an init in progress; one whose build failed is cancelled or about to be. |
| LifecyclePeeks.PeekReadsThePublication | bridge/main.go:567-587 | An emergency stop or a snapshot reads a consumer exactly when init has published everything. |
| LifecyclePeeks.PeekGoesThroughExactly | bridge/main.go:567-587 | It goes through to the engine with its own operation exactly when the consumer it read was published, and otherwise returns having changed nothing. |
| LifecyclePeeks.PeekReachesTheEngine | bridge/main.go:553-587 | One that begins after init has published never returns without having been in the engine with its own operation. |
| LifecycleWitnesses.RunMayReturnBeforeTheHandler | bridge/main.go:940-978 | A reachable state in which run has returned 0 with the emergency handler still running. |
| LifecycleWitnesses.ShutdownsReachTheOpenings | bridge/main.go:451-453 | For every n a reachable state with n openings of the gate and n engine Shutdowns. |
| LifecycleWitnesses.InitFromTheLogHandlerDeadlocks | bridge/main.go:346-371 | A reachable state in which an init re-entered from the log handler has no enabled action. |
| Publication.EveryScheduleKeepsInv | src/engine.rs:280-424 | Every state that any sequence of concurrent builds, bridge inits and trampolines reaches satisfies the pointer and lock invariant. |
| Publication.PublicationFollowsSuccess | src/engine.rs:356-424 | With the lock free the handler pointer is set exactly when a build has succeeded; a published set is never freed after a success; no box is freed twice and, with the lock free, every box is published or freed; at most one build succeeds. |
| Publication.BuildsReportTruly | src/engine.rs:299-424 | At most one build reports success, one has exactly when the handlers are published, and a build reports an existing instance only after a success. |
| Publication.FailuresHaveTheirCodes | src/engine.rs:299-424 | Each failing step leads to its own code, after the roll-back where something was published. |
| Publication.TrampolinesReadLiveHandlers | src/engine.rs:96-131 | No build ever finds a set already published, and every trampoline dereferences a published, unfreed set. |
| Publication.SuccessIsFinal | src/engine.rs:299-302 | After a success no step moves the pointer or frees a box. |
| Publication.BandwidthMatchesThisBuild | src/engine.rs:383-385 | The registered bandwidth callback matches this build's metrics exactly when it has metrics or no earlier attempt had. |
| Publication.RetryWithoutMetricsKeepsBandwidth | src/engine.rs:374-424 | A reachable retry without metrics that succeeds with bandwidth collection on. |
| Callbacks.EveryScheduleKeepsInv | bridge/main.go:247-302 | Every state that any interleaving of setters, loads and seals reaches satisfies the registration invariant. |
| Callbacks.PublishedIsTheFoldOfAppliedMutations | bridge/main.go:268-290 | The published set is the fold in lock order of the stored mutations, each call's at most once; a returned setter stored its mutation exactly when it returned true; every load saw the fold of the stores before it. |
| Callbacks.NoRegistrationIsLost | bridge/main.go:268-290 | In every state each of the six pointers is the one last stored for its own field, null when none was, and every load saw the same of the stores before it. |
| Callbacks.StoredIsWhatWasAsked | bridge/main.go:589-628 | Every stored mutation has the field and the pointer its own call was given. |
| Callbacks.LoadsSeeTheCurrentSet | bridge/main.go:268-275 | A load returns the set published at that moment. |
| Callbacks.SealsTakeEffect | bridge/main.go:298-302 | Once a seal has returned, the registrations are sealed. |
| Callbacks.QuiescentSetIsWhatReturnedTrue | bridge/main.go:277-290 | With no setter in progress the stored mutations are those of the calls that returned true. |
| Callbacks.EveryCallIsAccountedFor | bridge/main.go:277-290 | Every call that started is in progress or has returned. |
| Callbacks.SealIsFinal | bridge/main.go:292-302 | After the seal no step changes the set. |
| Arena.Put | bridge/main.go:688-697 | The append closure writes the data at the cursor, keeps everything before it, and yields null for empty data. |
| Arena.TotalBytes | bridge/main.go:671-678 | The pre-pass counts exactly the bytes the packing writes. |
| Arena.PackHeader | bridge/main.go:699-707 | One header's key and value end up back to back behind what was there. |
| Arena.MarshalHeaders | bridge/main.go:665-710 | The final cursor is the byte total and every entry points at its header's bytes. |
| Arena.RegionsAreInBlock | bridge/main.go:665-710 | Every key and value region lies behind the header array inside the block, and the two of one entry are disjoint. |
| Arena.RegionsAreDisjoint | bridge/main.go:665-710 | Regions of different entries never overlap. |
| Arena.HeadersRoundTrip | src/trampolines.rs:76-119 | Reading never leaves the block, and gives back the same list, in order, with null, empty and present values distinct, exactly when every key is UTF-8 and every length and the count fit a C int. |
| Truncation.BackOffIsUnique | bridge/main.go:321-343 | Two loops that back off over continuation bytes from the same limit stop at the same place. |
| Truncation.BackOffFindsLongestPrefix | bridge/main.go:321-333 | On valid UTF-8 that place is the longest valid prefix within the limit, at most three bytes short of it. |
| Truncation.TruncateToRuneBoundary | bridge/main.go:321-333 | The Go loop is such a loop. |
| Truncation.WriteCErr | src/trampolines.rs:31-42 | The Rust loop is such a loop; it writes exactly the prefix and its length and nothing when a pointer is null or there is no room. |
| Truncation.WriteInitErr | bridge/main.go:335-343 | The same for the init error. |
| Truncation.ProcessTrampoline | src/trampolines.rs:125-204 | The return code tells the outcome; traits are written only on success; a rejection or a panic leaves a prefix of its text. |
| Truncation.ProcessMessage | bridge/main.go:738-787 | Go reports nil exactly when the handler accepted; a non-empty text reaches the dead-letter reason as its longest fitting prefix, otherwise the synthetic code text does; traits are added exactly when they are non-zero. |
| Utf8.CutsBetweenCharacters | src/trampolines.rs:36-39 | Cutting valid UTF-8 (section 4 of RFC 3629) leaves valid UTF-8 exactly when the next byte is no continuation byte. |
| Utf8.CharactersAreShort | bridge/main.go:321-333 | No four bytes in a row of valid UTF-8 are continuation bytes. |
| Fnv.MultiplicationIsUndone | abi-check/build.rs:37 | Wrapping multiplication by the FNV prime is undone by an inverse, both ways. |
| Fnv.XorByteUndoesItself | abi-check/build.rs:36 | Exclusive or with a byte stays in 64 bits and is its own inverse. |
| Fnv.FnvStepIsABijection | abi-check/build.rs:35-38 | For each byte a step is a bijection of the 64-bit states, and from one state different bytes lead apart. |
| Fnv.SuffixKeepsStatesApart | abi-check/build.rs:33-39 | Hashing a common suffix keeps different states different. |
| Fnv.OneByteEditChangesTheHash | abi-check/build.rs:33-39 | Texts of equal length that differ in one byte always hash differently. |
| Fnv.HexTellsHashesApart | abi-check/build.rs:39 | The sixteen-digit form is injective. |
| Fnv.HashOfA | abi-check/build.rs:33-40 | A published answer of 64-bit FNV-1a. |
| Fnv.Fnv1aHex | abi-check/build.rs:33-40 | The loop computes the sixteen digits of the hash. |
| StripComments.StripLoop | abi-check/build.rs:46-69 | The index loop terminates and computes the scanner's specification. |
| StripComments.SkipBlock | abi-check/build.rs:52-56 | The inner loop stops behind the first closer, or past the end when there is none. |
| StripComments.SkipLine | abi-check/build.rs:59-62 | The inner loop stops at the newline, which is kept. |
| StripComments.OutputHasNoOpener | abi-check/build.rs:46-69 | The output never holds a comment opener, also not one made of two pieces. |
| StripComments.StripIsIdempotent | abi-check/build.rs:46-69 | Scanning the output changes nothing. |
| StripComments.EverySourceIsSegments | abi-check/build.rs:46-69 | Every source decomposes into code, closed comments, line comments and at most one unclosed comment. |
| StripComments.StripLeavesTheSkeleton | abi-check/build.rs:46-69 | Scanning such segments leaves the code and one blank for each block comment: no comment text survives. |
| StripComments.CommentTextDoesNotMatter | abi-check/build.rs:71-83 | Rewriting comment text leaves the output and the signature unchanged. |
| StripComments.WhiteSpaceRunsDoNotMatter | abi-check/build.rs:76-83 | Sources whose comment-free texts differ only in their white-space runs have the same signature. |
| StripComments.LongerRunsSquashAlike | abi-check/build.rs:76-83 | Lengthening a run of white space is such a difference. |
| StripComments.SignatureIsExact | abi-check/build.rs:71-83 | Two headers have the same signature exactly when their llingr_ statements are the same word lists in the same order, so a reorder of two parameters always shows. |
| SignatureStatements.SignatureHoldsEveryStatement | abi-check/build.rs:76-83 | The printed statements are the word lists of exactly the semicolon-separated parts of the comment-free text that mention llingr_, each at its place. |
| SignatureStatements.OneChangedStatementShows | abi-check/build.rs:71-83 | Two headers that differ in any one such statement, at any place, have different signatures. |
| SignatureStatements.WordsLoseOnlySpace | abi-check/build.rs:79 | The words of a part are its characters other than white space, in order, and collapsing twice is collapsing once. |
| SignatureStatements.ContainsExactly | abi-check/build.rs:80 | A text mentions a name exactly when it is the name with something, or nothing, on either side. |
| SignatureStatements.MentionsSurviveCollapsing | abi-check/build.rs:79-80 | Collapsing white space neither makes nor hides the mention of a name. |
| AbiLock.ParseLockLoop | abi-check/build.rs:112-130 | The line loop computes the parser's specification, in which a later line overwrites an earlier one, also with a failure. |
| AbiLock.PrintThenParse | abi-check/build.rs:222 | Parsing a printed lock gives back the version and the signature, for every 64-bit version and trimmed one-line signature. |
| AbiLock.RegeneratedLockDecides | abi-check/build.rs:241-267 | A regenerated lock is later judged by exactly two questions: did the signature's hash move, did the version. |
| AbiLock.CosmeticEditsPass | abi-check/build.rs:42-46 | Editing comments or white-space runs never trips the lock. |
| AbiLock.OneCharacterEditIsCaught | abi-check/build.rs:241-267 | Changing one ASCII character of the signature always trips it, whatever the version does. |
| LockFile.LockIsReadExactly | abi-check/build.rs:112-130 | From any file: the last line of each key decides, an earlier one never counts, and a later one that cannot be read takes the value away. |
| LockFile.BuildGoesThroughExactly | abi-check/build.rs:229-267 | From any file or none: the build goes through exactly when the lock holds this version and signature, and each other case has its own complaint. |
| LockFile.EncodeIsUtf8 | abi-check/build.rs:205 | The bytes that are hashed are the signature's UTF-8. |
| LockFile.CharactersAreEncodings | abi-check/build.rs:205 | The grammar's characters are the encodings of the code points and no others. |
| Pairs.DedupeLoop | src/config.rs:97-107 | The loop keeps each key once, where it first appeared, with the value it was last given. |
| Pairs.DedupedMeansTheSame | src/config.rs:93-107 | Deduplication leaves the last-write-wins map unchanged. |
| Json.PrintThenParse | src/config.rs:371-394 | Parsing a printed document by the JSON grammar gives the document back, for all strings and nestings. |
| Json.ReadQuoted | src/config.rs:380-394 | Every escaped string is read back exactly and the reader stops at its closing quote. |
| Json.PrintHasNoControls | src/config.rs:380-394 | A printed document holds no character below the blank. |
| Json.SurrogatesAreOneCharacter | bridge/config.go:115-121 | Two escaped surrogates are read as their one character. |
| ConfigJson.JsonBuffer.EscapeInto | src/config.rs:380-394 | Appends exactly the escaped text to the buffer. |
| ConfigJson.JsonBuffer.PushStringField | src/config.rs:371-377 | Appends exactly one quoted key and value. |
| ConfigJson.FieldList.PushInt | src/config.rs:246-250 | Adds the field's JSON text when the setting is set, nothing otherwise. |
| ConfigJson.FieldList.PushDuration | src/config.rs:259-266 | The same for a duration in milliseconds. |
| ConfigJson.DemuxJson | src/config.rs:243-289 | The joined fields are the printed object of exactly the settings that are set, and there is none when none is. |
| ConfigJson.PushKafkaConfig | src/config.rs:318-328 | The optional object is the printed deduplicated pairs, commas in between. |
| ConfigJson.ConfigJsonText | src/config.rs:299-369 | The pushed text is the printed form of the configuration's document. |
| BridgeConfig.ConfigurationSurvives | bridge/config.go:115-174 | For all inputs the bridge decodes the host's text to exactly those inputs, kafka_config being the last-write-wins map; it refuses only a demux setting the engine's struct does not name, and an empty broker list, topic or group. |
| BridgeConfig.AcceptedConfigsAreSound | bridge/config.go:115-174 | Whatever text is accepted has no unknown field or demux setting, a broker list, a topic, a group and a known adapter. |
| DemuxNames.DemuxIsRead | src/config.rs:243-289 | The bridge finds every engine setting under its own name. |
| DemuxNames.CountsByName | src/config.rs:246-256 | The five counts, name by name. |
| DemuxNames.TimingsByName | src/config.rs:259-271 | Five durations in milliseconds, name by name. |
| DemuxNames.GuardsByName | src/config.rs:272-283 | The other three, name by name. |
| BridgeConfig.NoInteriorNul | src/engine.rs:304-314 | The document holds no NUL, so that error branch is unreachable. |
| Options.Options.Set | src/options.rs:400-644 | One setter call updates the builder in place as the setter's meaning says; what chains of them leave behind is stated by SetterLaws and PrintedSetters. |
| SetterLaws.PasswordInForce | src/options.rs:449-477 | After a chain whose last sasl_* setter is a password one, the builder holds that setter's scheme, user name and password. |
| SetterLaws.AwsInForce | src/options.rs:488-537 | For AWS it holds the arguments of the last refiner of each kind behind that setter, and nothing where there is none. |
| SetterLaws.OidcInForce | src/options.rs:550-603 | For OIDC the endpoint, the client's credentials and the last refinements. |
| SetterLaws.GcpInForce | src/options.rs:612-644 | For Google Cloud the last refinements. |
| SetterLaws.SaslIsAskedFor | src/options.rs:449-644 | A chain leaves a mechanism exactly when it holds a sasl_* setter. |
| SetterLaws.TlsIsAskedFor | src/options.rs:400-644 | TLS is on exactly when the chain holds a tls_* setter or a cloud mechanism. |
| SetterLaws.LastWriterDecides | src/options.rs:406-443 | Each ssl key holds the argument of the last setter that writes it. |
| SetterLaws.LastOptionDecides | src/options.rs:665-680 | An ordinary option keeps the value it was last given. |
| PrintedSetters.PrintedMapPrints | src/options.rs:737-824 | Under the name of every security key the printed pairs hold what the settings emit, and nothing when they emit nothing. |
| PrintedSetters.ProtocolIsPrinted | src/options.rs:739-746 | The protocol says what the chain asks for. |
| PrintedSetters.CaIsPrinted | src/options.rs:406-413 | ssl.ca.location and ssl.ca.pem hold the last setters' arguments. |
| PrintedSetters.CertificateFilesArePrinted | src/options.rs:419-422 | The certificate's path and its key's path, each under its own name. |
| PrintedSetters.CertificateTextsArePrinted | src/options.rs:426-429 | The certificate's text and its key's text, each under its own name. |
| PrintedSetters.VerificationIsPrinted | src/options.rs:434-436 | The certificate check is switched off exactly when the chain says so. |
| PrintedSetters.HostnameCheckIsPrinted | src/options.rs:441-443 | So is the host name check. |
| PrintedSetters.PasswordIsPrinted | src/options.rs:449-477 | sasl.username, sasl.password and sasl.mechanism hold the last sasl_* setter's own arguments. |
| PrintedSetters.AwsIsPrinted | src/options.rs:488-537 | Each aws.* name holds its last refiner's argument, and is absent without one. |
| PrintedSetters.OidcIsPrinted | src/options.rs:550-562 | The endpoint's and the client's names hold their arguments. |
| PrintedSetters.OidcRefinementsArePrinted | src/options.rs:569-603 | Scope and extensions hold the last refiners' arguments; no extensions print nothing. |
| PrintedSetters.GcpIsPrinted | src/options.rs:612-644 | The gcp.* names hold the last refiners' arguments. |
| PrintedSetters.OtherMechanismsAreAbsent | src/options.rs:753-824 | Nothing is printed under another mechanism's names, whatever setters came before. |
| PrintedSetters.OptionsArePrinted | src/options.rs:665-680 | An ordinary option is printed with the value it was last given. |
| PrintedSetters.StringPairsAreRefusedExactly | src/options.rs:687-729 | The builder refuses a chain exactly when a string pair names a key its typed security setters can emit. |
| Options.Options.SetTlsOption | src/options.rs:174-178 | A tls_* setter records its pairs and turns TLS on. |
| Options.Options.AllEntries | src/options.rs:737-824 | The emitted pairs are the ordinary ones followed by the protocol, the ssl pairs and the mechanism's. |
| Options.Options.Validate | src/options.rs:831-853 | Accepts exactly when no ordinary pair has a key the active typed setters can write. |
| Options.EveryChainIsConsistent | src/options.rs:174-178 | After every chain of setters, ssl pairs imply TLS, the cloud mechanisms imply TLS, and ssl values are ones a setter writes. |
| Options.EmittedKeysAreTyped | src/options.rs:687-729 | The typed keys cover everything the security part emits. |
| SecurityKeys.NamesDiffer | bridge/franz_security.go:67-94 | No two security keys share a name. |
| SecurityKeys.KeyOfWireName | bridge/franz_security.go:67-94 | The collector table finds every security key by the name the host prints. |
| SecurityComposition.LastSslSetterWins | src/options.rs:737-752 | The ssl value emitted for a key is that of the last setter in the chain that writes it. |
| SecurityComposition.SaslPairsValue | src/options.rs:753-824 | Each mechanism key is emitted with the value its setters gave it, and only when they gave one. |
| SecurityComposition.TypedKeysKeepTheirValues | src/options.rs:737-853 | If the builder validates, every emitted security key ends with its typed value, no ordinary pair touches it, and every other key keeps its ordinary value. |
| SecurityComposition.CollectedIsTheMap | bridge/franz_security.go:67-106 | Without the mechanism's alias the collected fields do not depend on the order of collection. |
| FranzSecurity.FranzSecurity.Collect | bridge/franz_security.go:98-106 | A security key updates its one field, normalised; any other key is refused and changes nothing. |
| SecurityExactly.BuildExactly | bridge/franz_security.go:145-377 | From any fields: a client is built exactly when it explains every field, none of its parts is empty and the outside world provides it, so no key is contradicted or ignored but for the endpoint algorithm. |
| SecurityExactly.ProtocolRefusesExactly | bridge/franz_security.go:145-180 | Each refusal about the protocol, exactly: missing, unknown, plaintext with other keys, sasl keys without sasl, ssl keys without ssl. |
| SecurityExactly.MechanismRefusesExactly | bridge/franz_security.go:318-345 | Each refusal of keys that belong to another mechanism, exactly. |
| SecurityExactly.UnsupportedExactly | bridge/franz_security.go:366-376 | Kerberos and unknown mechanisms are refused, each as what it is. |
| SecurityExactly.UnknownEndpointIsIgnoredExactly | bridge/franz_security.go:260-305 | An endpoint algorithm that is none is refused unless verification is off. |
| SecurityExactly.SomeKeyIsIgnored | bridge/franz_security.go:260-305 | With verification off the endpoint algorithm may be nonsense. |
| SecurityNames.FieldsAreCollected | bridge/franz_security.go:67-106 | Every field holds the value under its key's name, as stored. |
| SecurityNames.WordsByName | bridge/franz_security.go:67-94 | Protocol, verification, endpoint algorithm and method are read in any case and without blanks. |
| SecurityNames.CertificatesByName | bridge/franz_security.go:67-94 | CA and certificate files are read as they are. |
| SecurityNames.KeysByName | bridge/franz_security.go:67-94 | So are certificate and key texts. |
| SecurityNames.CredentialsByName | bridge/franz_security.go:67-94 | So are credentials. |
| SecurityNames.AwsByName | bridge/franz_security.go:67-94 | AWS keys lose the blanks around them. |
| SecurityNames.TokenKeysByName | bridge/franz_security.go:67-94 | So do endpoint, scope and the gcp keys. |
| SecurityNames.MechanismByName | bridge/franz_security.go:78-79 | The mechanism is read under either name, and the second wins. |
| TypedSecurity.SaslAgrees | bridge/franz_security.go:318-377 | On what the typed setters emit, the mechanism the bridge assembles is the one they describe. |
| TypedSecurity.TlsAgrees | bridge/franz_security.go:207-309 | On what the typed setters emit, the TLS configuration is the one they describe. |
| TypedSecurity.SettersMeanWhatTheySay | bridge/franz_security.go:145-197 | For every chain of typed setters without string security keys, in whatever order the keys arrive, the bridge builds exactly the client the last setters ask for, argument by argument, exactly when what they ask for is possible, and otherwise reports the first bad value. |
| TypedSecurity.OnlyValuesCanBeRefused | bridge/franz_security.go:145-377 | Such a chain never meets a protocol conflict, an orphaned key family or a refusal of an unencrypted transport. |
| EndToEnd.TheMapHoldsWhatWasEmitted | bridge/adapter_franz.go:526-573 | The security part of the bridge's map holds what the setters emitted, past the pop functions. |
| EndToEnd.SettersReachTheClient | bridge/franz_security.go:145-197 | The same from the chain through the printed document to the bridge, on a configuration with brokers, topic and group whose demux settings the engine knows; and under each security name the bridge reads what the chain emits. |
| ListCodecs.ParseOAuthExtensions | bridge/oauth_oidc.go:191-213 | The loop fills the map part by part, skips blank parts and refuses a part without a key. |
| ListCodecs.ExtensionsRoundTrip | src/options.rs:798-804 | Joining then parsing extensions gives the last-write-wins map, for trimmed separator-free keys and trimmed comma-free values. |
| ListCodecs.OneExtensionSurvivesExactly | bridge/oauth_oidc.go:191-213 | A single extension survives exactly under those conditions. |
| ListCodecs.PartsOfConcat | bridge/oauth_oidc.go:191-213 | Parts are read one after another and the first bad one refuses the whole. |
| ListCodecs.PartIsRead | bridge/oauth_oidc.go:191-213 | A part is the pair around its first equals sign, blanks aside; without a key it is refused. |
| ListCodecs.TranslateStrategies | bridge/adapter_franz.go:332-356 | The loop appends one balancer for each entry and stops at the first it cannot read. |
| ListCodecs.StrategiesRoundTrip | src/options.rs:254-261 | Every non-empty strategy list arrives unchanged and in order; the empty one is refused. |
| ListCodecs.StrategiesAreSpelled | bridge/adapter_franz.go:332-356 | Any list is read entry by entry, in order, exactly when every entry spells a strategy in any case and with blanks around it. |
| GoNumbers.PrintedIntIsReadBack | bridge/adapters.go:114-159 | A number the host prints is read back unless it is out of range. |
| GoNumbers.MillisKeepTheirMeaning | bridge/adapters.go:114-130 | A typed duration is accepted with its own meaning exactly up to 9223372036854 ms, and refused exactly beyond 64 bits, and at zero where zero is not allowed. |
| GoNumbers.CountsKeepTheirMeaning | bridge/adapters.go:153-159 | A typed count is accepted, as itself, exactly when it is positive and below 2^31. |
| GoNumbers.SomeMillisChangeMeaning | bridge/adapters.go:114-120 | A value of over 584 years is accepted as about one minute. |
| OptionTable.SortKeys | bridge/adapter_franz.go:531-537 | The keys of the map, each once, in order. |
| OptionTable.SortedKeysAreUnique | bridge/adapter_franz.go:531-537 | The sorted keys are unique, so map iteration order cannot matter. |
| OptionTable.TakeKey | bridge/adapter_franz.go:541-566 | One key is refused as reserved, collected as security, translated by the table, or refused as unknown; OptionNames says what the table makes of each name. |
| OptionTable.FranzKgoOpts | bridge/adapter_franz.go:526-573 | The loop over the sorted keys and the security unit compute the translation of the whole map. |
| OptionAccounting.WalkAcceptsTheMap | bridge/adapter_franz.go:541-566 | The loop gets through exactly when every key of the map is known and its own value is in order. |
| OptionAccounting.FieldsAreTheMaps | bridge/franz_security.go:67-106 | The collected fields are a function of the map in which the alias of the mechanism beats its first name. |
| OptionAccounting.TranslationIsOfTheMap | bridge/adapter_franz.go:526-573 | Success, security and the set of options are functions of the map: the options are exactly the contributions of its keys. |
| OptionNames.ClientNamesDiffer | bridge/adapter_franz.go:284-522 | No two keys of the table share a name. |
| OptionNames.StartOffsetByName | bridge/adapter_franz.go:290-299 | A new group starts at the beginning exactly for auto.offset.reset=earliest, at the end exactly for latest. |
| OptionNames.GroupDurationsByName | bridge/adapter_franz.go:303-323 | Session, heartbeat and rebalance timeouts carry the milliseconds of their own names. |
| OptionNames.ConnectionDurationsByName | bridge/adapter_franz.go:436-450 | So do the connection timeouts. |
| OptionNames.RequestDurationsByName | bridge/adapter_franz.go:411-470 | So do the metadata age and the retry timeout. |
| OptionNames.FetchWaitByName | bridge/adapter_franz.go:378-394 | Both spellings of the fetch wait set the one option. |
| OptionNames.SizesByName | bridge/adapter_franz.go:357-377 | The fetch sizes carry the numbers of their own names. |
| OptionNames.LimitsByName | bridge/adapter_franz.go:454-483 | So do the limits on requests. |
| OptionNames.TextsByName | bridge/adapter_franz.go:300-410 | Client id, instance id and rack arrive unchanged. |
| OptionNames.SwitchesByName | bridge/adapter_franz.go:486-521 | A switch is set exactly for the value that is not the client's default. |
| OptionNames.LevelAndStrategiesByName | bridge/adapter_franz.go:332-432 | The isolation level is set when it is asked for, and the balancers are those the list names. |
| OptionNames.DurationsAreTaken | bridge/adapter_franz.go:284-522 | A duration is taken exactly when it is a positive number of milliseconds. |
| OptionNames.CountsAreTaken | bridge/adapter_franz.go:284-522 | A count exactly when it is a positive 32-bit number. |
| OptionNames.SwitchesAreTaken | bridge/adapter_franz.go:284-522 | A switch exactly when it is a boolean. |
| OptionNames.WordsAreTaken | bridge/adapter_franz.go:290-432 | The start offset and the isolation level take exactly their words. |
| OptionNames.TextsAreTaken | bridge/adapter_franz.go:300-410 | A text is taken unless it is blank; the client id always. |
| OptionNames.OtherNamesAreRefused | bridge/adapter_franz.go:541-551 | No other name is taken. |
| OptionNames.RefusalsSayWhy | bridge/adapter_franz.go:541-551 | A name is refused as reserved or as unknown exactly when it is. |
| AdapterOptions.OptionMap.Take | bridge/adapter_franz.go:203-204 | Looks a key up and deletes it, and only it. |
| AdapterOptions.PopClientLogLevel | bridge/adapter_franz.go:246-269 | Reads the level or refuses it, and removes that key alone. |
| AdapterOptions.PopPollErrorOptions | bridge/adapter_franz.go:200-241 | Reads the three keys in their order, refuses the first bad one, and removes exactly those keys. |
| AdapterOptions.LevelByName | bridge/adapter_franz.go:246-269 | The client's log level is the one that is named, unset when none is. |
| AdapterOptions.PollOptionsByName | bridge/adapter_franz.go:200-241 | Each poll-error option carries the milliseconds of its own name. |
| AdapterOptions.PollValuesKeepTheirMeaning | bridge/adapter_franz.go:180-199 | The typed values taken with their own meaning are exactly those of the documented ranges of the three keys. |
| AdapterOptions.BailAfterNeverChangesExactly | bridge/adapter_franz.go:203-216 | For every text the bail delay is refused or means what it says exactly when its nanoseconds fit in 64 bits or the wrapped product is neither zero nor between one minute and one hour. |
| AdapterOptions.BackoffNeverChangesExactly | bridge/adapter_franz.go:226-238 | The same for the pause: exactly when they fit or the wrapped product is above 5 s. |
| AdapterOptions.LogIntervalNeverChangesExactly | bridge/adapter_franz.go:217-224 | The same for the log interval: exactly when they fit. |
| AdapterOptions.TypedPollValuesNeverChangeExactly | bridge/adapter_franz.go:176-241 | For the millisecond counts the host prints: refused or taken as what they are exactly up to 9223372036854 ms, beyond 64 bits, or where the wrapped product fails the key's check. |
| AdapterOptions.BailAfterCanChangeItsMeaning | bridge/adapter_franz.go:203-216 | A delay of over 584 years is accepted as about a minute, and 2^58 ms as no bail at all. |
| AdapterOptions.NegativeDurationsAreAccepted | bridge/adapter_franz.go:217-238 | The first value past the limit is accepted as a negative pause and a negative log interval. |
| AdapterOptions.IntervalsArrive | bridge/config.go:84-112 | The bandwidth intervals the host prints arrive as themselves exactly within one second to twelve hours for the cadence and above zero for the flush; outside they are refused. |
| AdapterOptions.BuildFranzOptions | bridge/adapter_franz.go:75-105 | Guard, bandwidth, level, poll-error options and table run in that order on one map and compute the outcome. |
| AdapterOptions.EveryKeyIsAccountedFor | bridge/adapter_franz.go:75-105 | Options are built exactly when the rebalance guard holds, the bandwidth intervals are in range, every key is read by its one reader without a complaint, and the security keys fit together. |
| AdapterOptions.ClientRebalanceExceedsDrain | bridge/adapter_franz.go:47-72 | Whenever options are built, the rebalance timeout the client gets, set or 60 s, exceeds the drain timeout, set or 20 s. |
| AdapterOptions.GuardRefusesExactly | bridge/adapter_franz.go:47-72 | The guard refuses exactly when the rebalance timeout can be read, or is left out, and does not exceed the drain timeout. |
| TokenCache.OidcTokenFetcher.AccessToken | bridge/oauth_oidc.go:61-78 | Before the leeway the cached token is returned; otherwise the answer's token is returned and cached with the answer's own lifetime, or, without a usable answer, nothing changes. |
| TokenCache.LifetimeIsRead | bridge/oauth_oidc.go:127-131 | A positive 64-bit integer is the lifetime in seconds; a negative, fractional, missing or too large one counts as zero. |
| TokenCache.CacheHoldsTheLastFetch | bridge/oauth_oidc.go:61-78 | The cache always holds the token of the last usable answer and the expiry that answer promised, whatever failed since. |
| TokenCache.FailedRequestsLeaveNoTrace | bridge/oauth_oidc.go:61-78 | Taking every failed request out of a run leaves the other requests' tokens, in order, and the final cache unchanged. |
| TokenCache.ReturnedTokensAreGood | bridge/oauth_oidc.go:61-78 | Every request returns the token of its own usable answer, nothing without one, or from the cache the token of the last usable answer with more than 30 s of the lifetime that answer promised left. |
| TokenCache.ServedExactlyBeforeTheLeeway | bridge/oauth_oidc.go:65-67 | After the answer with a token and n seconds, and no fetch since, a request is served, and gets that token, exactly when it starts more than 30 s before they are over. |
| TokenCache.NoRefetchWhileFresh | bridge/oauth_oidc.go:65-67 | With a clock that never runs backwards, no request before L - 30 s after a fetch of lifetime L goes to the endpoint. |
| TokenCache.StaleIsNeverServed | bridge/oauth_oidc.go:65-67 | From L - 30 s on the cache does not serve, and the request returns what the endpoint answers. |
| TokenCache.ShortLivedIsNeverServed | bridge/oauth_oidc.go:74-76 | An answered lifetime of 30 s or less, or one that is missing or cannot be read, is never served from the cache. |
| TokenCache.ExpiryIsTrueExactly | bridge/oauth_oidc.go:76 | The recorded expiry is the promised one exactly for lifetimes whose nanoseconds fit 64 bits. |
| TokenCache.ExpiryIsNeverLate | bridge/oauth_oidc.go:76 | A lifetime beyond that can only be recorded as shorter. |

## Left out

- The message engine, the franz adapter and franz-go are not part of this model; the lifecycle assumes only the notification contract above.
- Reading files, parsing certificates, resolving AWS and Google credentials and HTTP requests are outcomes handed to the model; the GCP principal look-up is part of resolving.
- `duration_ms_ceil` is not part of this model; durations are whole milliseconds.
- Contexts are numbers; a cancelled context has no further effect in the lifecycle, and the panic inside a broker cleanup is an end of that cleanup.
- A handler that calls `Builder::build` from inside a build waits on the init lock in the source; the model starts builds on threads of their own.
- `adapter_options` called several times on one builder, and its deferred error: the end-to-end result is about one `Options` value.
- JSON numbers other than non-negative integers, arrays, booleans and null are not in the parser, because the printer emits none; Go's case-insensitive match of field names is not modelled.
- An unpaired surrogate escape is refused by the parser here; Go replaces it. The printer emits none.
- `strings.ToLower` and `strings.ToUpper` are modelled as far as a comparison with ASCII text can tell.
- The version constants read out of the two sources, the search for the header and the writing of the lock file are build plumbing.
- Dead-letter, metrics, bandwidth and log marshalling, snapshots and logging would add only easy members.
- Wording of error messages beyond which check fired.
- OptionTable.FranzKgoOpts: an error carries the refused key, not the text of the message with its list of supported keys.
- FranzSecurity.FranzSecurity.Collect: the struct's fields are one map from key to value, so a misspelt field name has no counterpart.
- Options.Options.Set: setters of client options without security meaning are one constructor with a name and a value.
- BridgeConfig.ConfigurationSurvives: the demux members are compared by name with the engine's tags and handed on; the engine's own decoder of their values is not part of this model.
- AdapterOptions.BuildFranzOptions: `time.ParseDuration` is a parameter, of which `IntervalsArrive` assumes how it reads the host's millisecond texts; `nexus.ValidateBandwidthInterval` is not part of this model and its range is taken from `bridge/config.go:81-83`.
