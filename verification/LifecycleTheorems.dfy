/** What every schedule of the lifecycle protocol guarantees, and where a promise of the
    source's comments does not hold. */
module LifecycleTheorems {
  import opened Common
  import opened Lifecycle
  import opened LifecycleInvariant

  // -- Reading a well-ordered history -------------------------------------------

  lemma {:induction false} AllowedAt(log: Log, i: nat)
    requires WellOrdered(log) && i < |log|
    ensures WellOrdered(log[..i]) && Allowed(log[..i], log[i])
  {
    var prefix := log[..|log| - 1];
    if i < |log| - 1 {
      AllowedAt(prefix, i);
      assert prefix[..i] == log[..i];
    }
  }

  /** es happened in this order, possibly with other events in between. */
  ghost predicate InOrder(log: Log, es: seq<Event>)
    decreases |es|
  {
    es == [] || exists i :: 0 <= i < |log| && log[i] == es[|es| - 1] && InOrder(log[..i], es[..|es| - 1])
  }

  /** An ordered list of events before i, extended by the event at i. */
  lemma InOrderThen(log: Log, n: nat, i: nat, es: seq<Event>, es2: seq<Event>)
    requires i < n <= |log| && InOrder(log[..i], es) && es2 == es + [log[i]]
    ensures InOrder(log[..n], es2)
  {
    assert es2[..|es2| - 1] == es;
    assert log[..n][..i] == log[..i] && log[..n][i] == log[i];
  }

  // -- Counting -------------------------------------------------------------------

  lemma {:induction false} WinsWithinOpenings(log: Log)
    requires WellOrdered(log)
    ensures CountWins(log) + (if GateOf(log) then 1 else 0) <= CountOpenings(log)
  {
    if log != [] { WinsWithinOpenings(log[..|log| - 1]); }
  }

  ghost function StartedTickets(log: Log): set<nat> {
    if log == [] then {}
    else
      StartedTickets(log[..|log| - 1])
      + match log[|log| - 1] case ShutdownStarted(k) => {k} case _ => {}
  }

  lemma {:induction false} StartedTicketsAreRecorded(log: Log, k: nat)
    ensures k in StartedTickets(log) <==> ShutdownStarted(k) in log
  {
    if log != [] {
      StartedTicketsAreRecorded(log[..|log| - 1], k);
      assert log == log[..|log| - 1] + [log[|log| - 1]];
    }
  }

  lemma {:induction false} EachTicketShutsDownOnce(log: Log)
    requires WellOrdered(log)
    ensures |StartedTickets(log)| == CountShutdowns(log)
  {
    if log != [] {
      var prefix := log[..|log| - 1];
      EachTicketShutsDownOnce(prefix);
      match log[|log| - 1]
      case ShutdownStarted(k) => StartedTicketsAreRecorded(prefix, k);
      case _ =>
    }
  }

  lemma {:induction false} BoundedTickets(s: set<nat>, n: nat)
    requires forall k :: k in s ==> k < n
    ensures |s| <= n
  {
    if n == 0 {
      assert s == {};
    } else {
      BoundedTickets(s - {n - 1}, n - 1);
    }
  }

  /** Engine Shutdowns started never exceed the openings of the stop gate by run; with one
      opening there is at most one. */
  lemma ShutdownsNeverExceedOpenings(sched: Schedule)
    requires Execute(sched).Some?
    ensures CountShutdowns(Execute(sched).value.g.log) <= CountOpenings(Execute(sched).value.g.log)
  {
    EveryScheduleKeepsInv(sched);
    var log := Execute(sched).value.g.log;
    WinsWithinOpenings(log);
    EachTicketShutsDownOnce(log);
    forall k | k in StartedTickets(log) ensures k < CountWins(log) {
      StartedTicketsAreRecorded(log, k);
      TicketsBelowWins(log, k);
    }
    BoundedTickets(StartedTickets(log), CountWins(log));
  }

  // -- The stop gate --------------------------------------------------------------

  lemma {:induction false} NoOpeningNoWin(log: Log)
    requires WellOrdered(log) && CountOpenings(log) == 0
    ensures !GateOf(log) && forall k :: StopWon(k) !in log
  {
    if log != [] {
      NoOpeningNoWin(log[..|log| - 1]);
      assert log == log[..|log| - 1] + [log[|log| - 1]];
    }
  }

  lemma StopStepIsInert(g: Shared, t: Tid, pc: StopPc)
    requires StopInv(g, pc) && !g.gate && forall k :: StopWon(k) !in g.log
    ensures var o := StopStep(g, t, pc); !o.Blocked? ==> o.g.(mu := g.mu) == g
  {
  }

  /** Before any run opens the gate, a stop changes nothing but state.mu: no Shutdown, no
      cancel, no signal, and the gate stays as it was. */
  lemma StopBeforeOpeningIsInert(sched: Schedule, t: Tid, c: Choice)
    requires Execute(sched).Some? && CountOpenings(Execute(sched).value.g.log) == 0
    requires var fs := Stack(Execute(sched).value, t); fs != [] && Top(fs).StopF?
    requires Apply(Execute(sched).value, t, Advance(c)).Some?
    ensures var s, s2 := Execute(sched).value, Apply(Execute(sched).value, t, Advance(c)).value;
            s2.g.(mu := s.g.mu) == s.g
  {
    EveryScheduleKeepsInv(sched);
    var s := Execute(sched).value;
    TopCanStep(s, t);
    NoOpeningNoWin(s.g.log);
    StopStepIsInert(s.g, t, Top(Stack(s, t)).stop);
  }

  /** A stop that reaches its compare-and-swap always moves on. It wins exactly when the last
      gate event is an opening; otherwise it returns at once and changes nothing. */
  lemma StopWinsExactlyAnOpenGate(sched: Schedule, t: Tid, c: Choice)
    requires Execute(sched).Some?
    requires var fs := Stack(Execute(sched).value, t);
             fs != [] && Top(fs).StopF? && Top(fs).stop.StopCas? && Top(fs).stop.consumer
    ensures Apply(Execute(sched).value, t, Advance(c)).Some?
    ensures var s, s2 := Execute(sched).value, Apply(Execute(sched).value, t, Advance(c)).value;
            if GateOf(s.g.log) then
              s2.g == s.g.(gate := false, log := s.g.log + [StopWon(CountWins(s.g.log))])
              && |Stack(s2, t)| == |Stack(s, t)|
              && Top(Stack(s2, t)) == StopF(StopCall(s.g.cancel, CountWins(s.g.log)))
            else s2.g == s.g && |Stack(s2, t)| == |Stack(s, t)| - 1
  {
    EveryScheduleKeepsInv(sched);
    TopCanStep(Execute(sched).value, t);
  }

  /** After a stop won, or the notification closed the gate, no stop wins again until a run
      reopens it. */
  lemma {:induction false} NoWinWithoutReopening(log: Log, i: nat, j: nat)
    requires WellOrdered(log) && i < j < |log|
    requires log[i].StopWon? || log[i].NoticeBegun?
    requires log[j].StopWon?
    ensures exists m :: i < m < j && log[m].GateOpened?
  {
    AllowedAt(log, j);
    LastGateEvent(log[..j], i);
  }

  lemma {:induction false} LastGateEvent(log: Log, i: nat)
    requires i < |log| && (log[i].StopWon? || log[i].NoticeBegun?) && GateOf(log)
    ensures exists m :: i < m < |log| && log[m].GateOpened?
  {
    var last := |log| - 1;
    if !log[last].GateOpened? {
      assert i < last;
      LastGateEvent(log[..last], i);
      var m :| i < m < last && log[..last][m].GateOpened?;
      assert log[m].GateOpened?;
    }
  }

  // -- What precedes what -----------------------------------------------------------

  /** A winner's Shutdown has been won, started and ended before the events it leads to. */
  lemma WinnerHistory(log: Log, i: nat, k: nat)
    requires WellOrdered(log) && i < |log|
    requires log[i] == ShutdownEnded(k) || log[i] == CtxCancelled(Winner(k))
    ensures InOrder(log[..i], if log[i].ShutdownEnded? then [StopWon(k), ShutdownStarted(k)]
                              else [StopWon(k), ShutdownStarted(k), ShutdownEnded(k)])
    decreases i
  {
    AllowedAt(log, i);
    if log[i].ShutdownEnded? {
      var b :| 0 <= b < i && log[..i][b] == ShutdownStarted(k);
      AllowedAt(log, b);
      var a :| 0 <= a < b && log[..b][a] == StopWon(k);
      InOrderThen(log, b, a, [], [StopWon(k)]);
      InOrderThen(log, i, b, [StopWon(k)], [StopWon(k), ShutdownStarted(k)]);
    } else {
      var b :| 0 <= b < i && log[..i][b] == ShutdownEnded(k);
      WinnerHistory(log, b, k);
      InOrderThen(log, i, b, [StopWon(k), ShutdownStarted(k)],
                  [StopWon(k), ShutdownStarted(k), ShutdownEnded(k)]);
    }
  }

  /** Without an emergency notification the bridge context is cancelled only by a gate
      winner, and only after that winner's Shutdown has returned or panicked. */
  lemma CancelWaitsForShutdown(sched: Schedule, i: nat)
    requires Execute(sched).Some? && i < |Execute(sched).value.g.log|
    requires NoticeBegun(Emergency) !in Execute(sched).value.g.log
    requires Execute(sched).value.g.log[i].CtxCancelled?
    ensures var log := Execute(sched).value.g.log;
            log[i].via.Winner?
            && InOrder(log[..i], [StopWon(log[i].via.ticket), ShutdownStarted(log[i].via.ticket),
                                  ShutdownEnded(log[i].via.ticket)])
  {
    EveryScheduleKeepsInv(sched);
    var log := Execute(sched).value.g.log;
    match log[i].via
    case Winner(k) => WinnerHistory(log, i, k);
    case Notice => CleanupHistory(log, i);
  }

  lemma NoSecondNotice(log: Log, i: nat, j: nat)
    requires WellOrdered(log) && i < j < |log| && log[i].NoticeBegun?
    ensures !log[j].NoticeBegun?
  {
    assert log[..j][i] == log[i];
    assert log[i].reason == Graceful || log[i].reason == Emergency;
    assert log[i] == NoticeBegun(log[i].reason);
    AllowedAt(log, j);
  }

  /** Where the emergency notification's events are, before its cancellation at i. */
  lemma CleanupIndexes(log: Log, i: nat) returns (a: nat, b: nat, c: nat, d: nat)
    requires WellOrdered(log) && i < |log| && log[i] == CtxCancelled(Notice)
    ensures a < b < c < d < i
    ensures log[a] == NoticeBegun(Emergency) && log[b] == HandlerDone && log[c] == CleanupStarted
    ensures log[d] == CleanupDone
  {
    AllowedAt(log, i);
    d :| 0 <= d < i && log[..i][d] == CleanupDone;
    AllowedAt(log, d);
    c :| 0 <= c < d && log[..d][c] == CleanupStarted;
    AllowedAt(log, c);
    b :| 0 <= b < c && log[..c][b] == HandlerDone;
    var n :| 0 <= n < c && log[..c][n] == NoticeBegun(Emergency);
    AllowedAt(log, b);
    a :| 0 <= a < b && log[..b][a].NoticeBegun?;
    if a < n {
      NoSecondNotice(log, a, n);
    } else if n < a {
      NoSecondNotice(log, n, a);
    }
  }

  /** The emergency notification's events, up to its cancellation at i. */
  lemma CleanupHistory(log: Log, i: nat)
    requires WellOrdered(log) && i < |log| && log[i] == CtxCancelled(Notice)
    ensures NoticeBegun(Emergency) in log
    ensures InOrder(log[..i], [NoticeBegun(Emergency), HandlerDone, CleanupStarted, CleanupDone])
  {
    var a, b, c, d := CleanupIndexes(log, i);
    InOrderThen(log, b, a, [], [NoticeBegun(Emergency)]);
    InOrderThen(log, c, b, [NoticeBegun(Emergency)], [NoticeBegun(Emergency), HandlerDone]);
    InOrderThen(log, d, c, [NoticeBegun(Emergency), HandlerDone],
                [NoticeBegun(Emergency), HandlerDone, CleanupStarted]);
    InOrderThen(log, i, d, [NoticeBegun(Emergency), HandlerDone, CleanupStarted],
                [NoticeBegun(Emergency), HandlerDone, CleanupStarted, CleanupDone]);
  }

  /** The engine's notification begins at most once. */
  lemma OnlyOneNotice(log: Log)
    requires WellOrdered(log)
    ensures forall i, j :: 0 <= i < |log| && 0 <= j < |log| && log[i].NoticeBegun? && log[j].NoticeBegun?
                           ==> i == j
  {
    forall i, j | 0 <= i < j < |log| && log[i].NoticeBegun? ensures !log[j].NoticeBegun? {
      NoSecondNotice(log, i, j);
    }
  }

  /** The broker cleanup starts at most once, and never after a graceful notification; the
      run channel is closed at most once. */
  lemma CleanupAndCloseHappenOnce(sched: Schedule)
    requires Execute(sched).Some?
    ensures var log := Execute(sched).value.g.log;
            && (forall i, j | 0 <= i < |log| && 0 <= j < |log|
                  :: log[i] == CleanupStarted && log[j] == CleanupStarted ==> i == j)
            && (forall i, j | 0 <= i < |log| && 0 <= j < |log| && log[i].Signalled? && log[j].Signalled?
                  :: log[i].closedNow && log[j].closedNow ==> i == j)
            && (NoticeBegun(Graceful) in log ==> CleanupStarted !in log)
  {
    EveryScheduleKeepsInv(sched);
    var log := Execute(sched).value.g.log;
    forall i, j | 0 <= i < j < |log| && log[i] == CleanupStarted ensures log[j] != CleanupStarted {
      assert log[..j][i] == CleanupStarted;
      AllowedAt(log, j);
    }
    forall i, j | 0 <= i < j < |log| && log[i].Signalled? && log[j].Signalled? ensures !log[j].closedNow {
      assert log[..j][i].Signalled?;
      AllowedAt(log, j);
    }
    if NoticeBegun(Graceful) in log && CleanupStarted in log {
      var c :| 0 <= c < |log| && log[c] == CleanupStarted;
      AllowedAt(log, c);
      OnlyOneNotice(log);
    }
  }

  /** The first signal is the one that closes the channel. */
  lemma {:induction false} FirstSignalCloses(log: Log) returns (i: nat)
    requires WellOrdered(log) && HasSignal(log)
    ensures i < |log| && log[i].Signalled? && log[i].closedNow
  {
    var prefix, last := log[..|log| - 1], |log| - 1;
    if HasSignal(prefix) {
      i := FirstSignalCloses(prefix);
    } else {
      i := last;
    }
  }

  lemma WinnersSignalHasAWin(log: Log, i: nat, k: nat)
    requires WellOrdered(log) && i < |log| && log[i].Signalled? && log[i].via == Winner(k)
    ensures StopWon(k) in log && HasWin(log) && ShutdownEnded(k) in log[..i]
  {
    AllowedAt(log, i);
    var x :| 0 <= x < i && log[..i][x] == CtxCancelled(Winner(k));
    AllowedAt(log, x);
    var e :| 0 <= e < x && log[..x][e] == ShutdownEnded(k);
    assert log[..i][e] == ShutdownEnded(k);
    AllowedAt(log, e);
    var s :| 0 <= s < e && log[..e][s] == ShutdownStarted(k);
    AllowedAt(log, s);
    var w :| 0 <= w < s && log[..s][w] == StopWon(k);
    assert log[w] == StopWon(k);
  }

  /** Without a gate winner, only the notification can have closed the run channel. */
  lemma SignalWithoutWin(log: Log, i: nat)
    requires WellOrdered(log) && i < |log| && !HasWin(log) && log[i].Signalled?
    ensures log[i].via == Notice
  {
    match log[i].via
    case Notice =>
    case Winner(k) => WinnersSignalHasAWin(log, i, k);
  }

  lemma NoticeSignalHistory(log: Log, i: nat)
    requires WellOrdered(log) && i < |log| && log[i].Signalled? && log[i].via == Notice
    ensures HandlerDone in log[..i]
    ensures NoticeBegun(Emergency) in log ==>
              InOrder(log[..i], [NoticeBegun(Emergency), HandlerDone, CleanupStarted, CleanupDone,
                                 CtxCancelled(Notice)])
  {
    AllowedAt(log, i);
    if NoticeBegun(Emergency) in log {
      var h :| 0 <= h < i && log[..i][h] == HandlerDone;
      AllowedAt(log, h);
      OnlyOneNotice(log);
      var a :| 0 <= a < h && log[..h][a].NoticeBegun?;
      assert log[..i][a] == NoticeBegun(Emergency);
      var x :| 0 <= x < i && log[..i][x] == CtxCancelled(Notice);
      CleanupHistory(log, x);
      InOrderThen(log, i, x, [NoticeBegun(Emergency), HandlerDone, CleanupStarted, CleanupDone],
                  [NoticeBegun(Emergency), HandlerDone, CleanupStarted, CleanupDone, CtxCancelled(Notice)]);
    }
  }

  // -- Locks --------------------------------------------------------------------------

  /** A thread that holds state.mu is inside the bridge, in a section the lock guards: not in
      the engine, the build, a host callback or the cleanup, and not waiting for state.mu. */
  lemma CalloutsHoldNoStateLock(sched: Schedule, t: Tid)
    requires Execute(sched).Some? && Execute(sched).value.g.mu == Some(t)
    ensures var fs := Stack(Execute(sched).value, t);
            fs != [] && InMu(Top(fs)) && !IsCallout(Top(fs)) && !WantsMu(Top(fs))
  {
    EveryScheduleKeepsInv(sched);
  }

  /** Steps left until a frame inside state.mu releases it. */
  function CriticalSteps(f: Frame): nat {
    match f
    case InitF(pc) =>
      if pc.InitPubCancel? then 5
      else if pc.InitPubConsumer? then 4
      else if pc.InitPubCleanup? then 3
      else if pc.InitPubDone? || pc.InitCheckRead? then 2
      else 1
    case RunF(pc) => if pc.RunReadConsumer? then 3 else if pc.RunReadDone? then 2 else 1
    case StopF(pc) => if pc.StopReadConsumer? then 3 else if pc.StopReadCancel? then 2 else 1
    case SigF(pc, _) => if pc.SigRead? then 2 else 1
    case PeekF(pc, _) => if pc.PeekRead? then 2 else 1
    case NoticeF(pc) => if pc.CleanReadCleanup? then 3 else if pc.CleanReadCancel? then 2 else 1
  }

  /** The holder of state.mu is never blocked: each of its at most five steps brings the
      release nearer, whatever the rest of the system does. */
  lemma StateLockIsAlwaysReleased(sched: Schedule, t: Tid, c: Choice)
    requires Execute(sched).Some? && Execute(sched).value.g.mu == Some(t)
    ensures Stack(Execute(sched).value, t) != []
    ensures Apply(Execute(sched).value, t, Advance(c)).Some?
    ensures var s, s2 := Execute(sched).value, Apply(Execute(sched).value, t, Advance(c)).value;
            s2.g.mu == None
            || (s2.g.mu == Some(t) && Stack(s2, t) != []
                && CriticalSteps(Top(Stack(s2, t))) < CriticalSteps(Top(Stack(s, t))) <= 5)
  {
    EveryScheduleKeepsInv(sched);
    TopCanStep(Execute(sched).value, t);
    CriticalStep(Execute(sched).value.g, t, Top(Stack(Execute(sched).value, t)), c);
  }

  ghost predicate BringsReleaseNearer(t: Tid, f: Frame, o: Outcome) {
    o.Next? && (o.g.mu == None || (o.g.mu == Some(t) && CriticalSteps(o.frame) < CriticalSteps(f) <= 5))
  }

  lemma CriticalInitStep(g: Shared, t: Tid, pc: InitPc, c: Choice)
    requires InMu(InitF(pc)) && g.mu == Some(t)
    ensures BringsReleaseNearer(t, InitF(pc), InitStep(g, t, pc, c))
  {
  }

  lemma CriticalRunStep(g: Shared, t: Tid, pc: RunPc, c: Choice)
    requires InMu(RunF(pc)) && g.mu == Some(t)
    ensures BringsReleaseNearer(t, RunF(pc), RunStep(g, t, pc, c))
  {
  }

  lemma CriticalStopStep(g: Shared, t: Tid, pc: StopPc)
    requires InMu(StopF(pc)) && g.mu == Some(t)
    ensures BringsReleaseNearer(t, StopF(pc), StopStep(g, t, pc))
  {
  }

  lemma CriticalOtherStep(g: Shared, t: Tid, f: Frame, c: Choice)
    requires InMu(f) && g.mu == Some(t) && (f.SigF? || f.PeekF? || f.NoticeF?)
    ensures BringsReleaseNearer(t, f, LocalStep(g, t, f, c))
  {
  }

  lemma CriticalStep(g: Shared, t: Tid, f: Frame, c: Choice)
    requires InMu(f) && g.mu == Some(t)
    ensures BringsReleaseNearer(t, f, LocalStep(g, t, f, c))
  {
    match f
    case InitF(pc) => CriticalInitStep(g, t, pc, c);
    case RunF(pc) => CriticalRunStep(g, t, pc, c);
    case StopF(pc) => CriticalStopStep(g, t, pc);
    case _ => CriticalOtherStep(g, t, f, c);
  }

  /** An init below the top of t's stack, calling out from its build or its log line. */
  ghost predicate BuildsBelow(s: State, t: Tid) {
    exists i :: 0 <= i < |Stack(s, t)| - 1
                && var f := Stack(s, t)[i]; f.InitF? && (f.init.InitLog? || f.init.InitBuild?)
  }

  lemma OwnLockIsABuildsBelow(s: State, t: Tid)
    requires Inv(s) && Stack(s, t) != [] && Top(Stack(s, t)) == InitF(InitEnter) && s.g.initMu == Some(t)
    ensures BuildsBelow(s, t)
  {
    var i :| 0 <= i < |Stack(s, t)| && TokenOf(Stack(s, t)[i]) == Some(InitToken);
    assert i != |Stack(s, t)| - 1 && IsCallout(Stack(s, t)[i]);
  }

  lemma BuildsBelowHoldTheLock(s: State, t: Tid)
    requires Inv(s) && BuildsBelow(s, t)
    ensures s.g.initMu == Some(t)
  {
    var i :| 0 <= i < |Stack(s, t)| - 1
             && Stack(s, t)[i].InitF? && (Stack(s, t)[i].init.InitLog? || Stack(s, t)[i].init.InitBuild?);
    assert FrameInv(s.g, t, Stack(s, t)[i]);
  }

  /** Init called back in from the build it is running waits for a lock its own thread
      holds; nothing else ever waits for itself. */
  lemma OnlyInitReentryWaitsForItself(sched: Schedule, t: Tid)
    requires Execute(sched).Some? && Stack(Execute(sched).value, t) != []
    requires Top(Stack(Execute(sched).value, t)) == InitF(InitEnter)
    ensures Execute(sched).value.g.initMu == Some(t) <==> BuildsBelow(Execute(sched).value, t)
  {
    EveryScheduleKeepsInv(sched);
    var s := Execute(sched).value;
    if s.g.initMu == Some(t) { OwnLockIsABuildsBelow(s, t); }
    if BuildsBelow(s, t) { BuildsBelowHoldTheLock(s, t); }
  }

  // -- The signal -----------------------------------------------------------------------------

  lemma SignalStepSignals(g: Shared, t: Tid, via: Driver)
    requires SharedInv(g) && FrameInv(g, t, SigF(SigOnce(true), via))
    ensures var o := SignalStep(g, t, SigOnce(true), via); o.Return? && HasSignal(o.g.log)
  {
    var e := Signalled(via, !g.closed);
    assert (g.log + [e])[|g.log|] == e;
  }

  /** The last step of a winning stop and of the notification is always enabled, and it
      signals: it never finds the channel missing. */
  lemma DriversAlwaysSignal(sched: Schedule, t: Tid, c: Choice)
    requires Execute(sched).Some?
    requires var fs := Stack(Execute(sched).value, t); fs != [] && Top(fs).SigF? && Top(fs).sig.SigOnce?
    ensures Apply(Execute(sched).value, t, Advance(c)).Some?
    ensures HasSignal(Apply(Execute(sched).value, t, Advance(c)).value.g.log)
  {
    EveryScheduleKeepsInv(sched);
    var s := Execute(sched).value;
    TopCanStep(s, t);
    assert Top(Stack(s, t)).sig == SigOnce(true);
    SignalStepSignals(s.g, t, Top(Stack(s, t)).via);
  }

  // -- Init ---------------------------------------------------------------------------------

  /** A run, a stop or a notification that saw a consumer saw the whole publication: the
      channel exists, and the cancel function is the published one. */
  lemma SnapshotsAreWhole(sched: Schedule, t: Tid, i: nat)
    requires Execute(sched).Some? && i < |Stack(Execute(sched).value, t)|
    ensures var s, f := Execute(sched).value, Stack(Execute(sched).value, t)[i];
            && (f.RunF? && f.run.RunOpen? && f.run.consumer ==> f.run.done && PublishedAll(s.g))
            && (f.RunF? && (f.run.RunSubscribe? || f.run.RunPark?) ==> f.run.done && PublishedAll(s.g))
            && (f.StopF? && f.stop.StopCas? && f.stop.consumer ==>
                  f.stop.cancel == s.g.cancel && PublishedAll(s.g))
            && (f.NoticeF? && f.notice.CleanCall? ==>
                  f.notice.cleanup && f.notice.cancel == s.g.cancel && s.g.cancel.Some?)
  {
    EveryScheduleKeepsInv(sched);
    assert FrameInv(Execute(sched).value.g, t, Stack(Execute(sched).value, t)[i]);
  }

  /** Init publishes once: after that no init is building or about to publish, and one that
      checks is refused. The published context is never one a failed build cancelled, and it
      is cancelled exactly when a winner or the notification has done so. */
  lemma InitPublishesOnce(sched: Schedule, t: Tid, i: nat)
    requires Execute(sched).Some? && Execute(sched).value.g.ready && i < |Stack(Execute(sched).value, t)|
    ensures var s, f := Execute(sched).value, Stack(Execute(sched).value, t)[i];
            && s.g.cancel.Some? && s.g.cancel.value !in s.g.dead
            && (s.g.cancel.value in s.g.cancelled <==> HasCancel(s.g.log))
            && (f.InitF? ==>
                  && !f.init.InitLog? && !f.init.InitBuild? && !f.init.InitPubLock? && !IsPartial(f)
                  && !f.init.InitAbort? && !f.init.InitPanicUnlock? && !f.init.InitPubCancel?
                  && (f.init.InitParse? || f.init.InitCheckUnlock? ==> f.init.already))
  {
    EveryScheduleKeepsInv(sched);
    assert FrameInv(Execute(sched).value.g, t, Stack(Execute(sched).value, t)[i]);
  }

  /** The code an init returns is true: 0 only when everything is published and the callbacks are
      sealed, -1 only when another init has published, and the others, for a bad configuration, a
      failed build and a panic, only when nothing is. */
  lemma InitReturnsTruly(sched: Schedule, t: Tid, i: nat, rc: int)
    requires Execute(sched).Some? && i < |Stack(Execute(sched).value, t)|
    requires Stack(Execute(sched).value, t)[i] == InitF(InitLeave(rc))
    ensures var g := Execute(sched).value.g;
            && rc in {0, -1, -2, -4, -5}
            && (rc == 0 ==> PublishedAll(g) && g.sealed)
            && (rc == -1 ==> PublishedAll(g))
            && (rc !in {0, -1} ==> PublishedNone(g))
  {
    EveryScheduleKeepsInv(sched);
    assert FrameInv(Execute(sched).value.g, t, Stack(Execute(sched).value, t)[i]);
  }

  /** An init that fails says how: -1 when it finds another published, -2 for a bad configuration,
      -5 for a panic on the way there, and -4 for a build that fails. */
  lemma InitFailuresHaveTheirCodes(s: State, t: Tid, already: bool, ctx: Ctx, c: Choice)
    requires Stack(s, t) != []
    ensures var o := Apply(s, t, Advance(c));
            && (Top(Stack(s, t)) == InitF(InitParse(already)) ==>
                  && o.Some? && o.value.g == s.g
                  && Top(Stack(o.value, t)) == InitF(
                       if already then InitLeave(-1)
                       else match c case Succeeds => InitLog case Fails => InitLeave(-2) case Panics => InitLeave(-5)))
            && (Top(Stack(s, t)) == InitF(InitBuild(ctx)) && c.Fails? ==>
                  o.Some? && o.value.g == s.g && Top(Stack(o.value, t)) == InitF(InitAbort(ctx, -4)))
  {
  }

  /** A thread may call back in exactly when it is outside the bridge: in no call at all, in the
      engine, in the adapter's build, in a callback of the host or in the broker cleanup. */
  lemma CallsBackInExactly(s: State, t: Tid, op: HostCall)
    ensures Apply(s, t, Call(op)).Some? <==>
      Stack(s, t) == []
      || (match Top(Stack(s, t))
          case InitF(pc) => pc == InitLog || pc.InitBuild?
          case RunF(pc) => pc.RunSubscribe?
          case StopF(pc) => pc.StopShutdown?
          case PeekF(pc, _) => pc == PeekEngine
          case NoticeF(pc) => pc.NoticeHandler? || pc.CleanRun?
          case SigF(_, _) => false)
  {
  }

  /** Run refuses exactly when the consumer it read was not published, and then it neither opens
      the gate nor parks; a failed or panicking Subscribe has its own code and leaves the gate
      open. */
  lemma RunReturnsTruly(s: State, t: Tid, pc: RunPc, c: Choice)
    requires Stack(s, t) != [] && Top(Stack(s, t)) == RunF(pc) && (pc.RunOpen? || pc.RunSubscribe?)
    ensures var o := Apply(s, t, Advance(c));
            && o.Some?
            && (if pc.RunOpen? then
                  if pc.consumer then
                    o.value.g == s.g.(gate := true, log := s.g.log + [GateOpened])
                    && Top(Stack(o.value, t)) == RunF(RunSubscribe(pc.done))
                  else o.value.g == s.g.(log := s.g.log + [RunReturned(-1)])
                else if c.Succeeds? then o.value.g == s.g && Top(Stack(o.value, t)) == RunF(RunPark(pc.done))
                else o.value.g == s.g.(log := s.g.log + [RunReturned(if c.Fails? then -2 else -3)]))
            && |Stack(o.value, t)| ==
                 |Stack(s, t)| - (if (pc.RunOpen? && pc.consumer) || (pc.RunSubscribe? && c.Succeeds?) then 0 else 1)
  {
  }
}
