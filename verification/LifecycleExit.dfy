/** When run returning 0 is the last thing the host sees: exactly what follows from the signal
    that closed the run channel, and from where the engine delivers its notification. */
module LifecycleExit {
  import opened Common
  import opened Lifecycle
  import opened LifecycleInvariant
  import opened LifecycleProgress
  import opened LifecycleTheorems
  import opened LifecycleCompletion

  // -- A driver ends with its signal --------------------------------------------

  /** One step records at most one event, and none that another frame owns. */
  lemma LogStep(s: State, t: Tid, a: Action, s2: State)
    requires Inv(s) && Apply(s, t, a) == Some(s2)
    ensures |s.g.log| <= |s2.g.log| <= |s.g.log| + 1 && s2.g.log[..|s.g.log|] == s.g.log
    ensures |s2.g.log| > |s.g.log| && OwnerOf(s2.g.log[|s.g.log|]).Some? ==>
              a.Advance? && OwnerOf(s2.g.log[|s.g.log|]) == TokenOf(Top(Stack(s, t)))
  {
    match a
    case Advance(c) => AdvanceShape(s, t, c, s2);
    case _ => PushShape(s, t, a, s2);
  }

  /** After its signal a driver records nothing more. */
  ghost predicate SilentAfterSignal(log: Log, via: Driver) {
    forall i, j :: 0 <= i < j < |log| && log[i].Signalled? && log[i].via == via
                   ==> OwnerOf(log[j]) != Some(DriverToken(via))
  }

  /** A step of a driver that has already signalled would be one of its frames'. */
  lemma StepIsSilent(s: State, t: Tid, a: Action, s2: State, via: Driver, i: nat)
    requires Inv(s) && Apply(s, t, a) == Some(s2)
    requires Carried(s, via) ==> !SignalledBy(s.g.log, via)
    requires i < |s.g.log| < |s2.g.log| && s.g.log[i].Signalled? && s.g.log[i].via == via
    ensures OwnerOf(s2.g.log[|s.g.log|]) != Some(DriverToken(via))
  {
    LogStep(s, t, a, s2);
    assert s.g.log[i] == Signalled(via, true) || s.g.log[i] == Signalled(via, false);
    if a.Advance? {
      var n := |Stack(s, t)| - 1;
      assert !Carries(Stack(s, t)[n], via);
    }
  }

  lemma SilenceIsKept(s: State, t: Tid, a: Action, s2: State, via: Driver)
    requires Inv(s) && Apply(s, t, a) == Some(s2) && SilentAfterSignal(s.g.log, via)
    requires Carried(s, via) ==> !SignalledBy(s.g.log, via)
    ensures SilentAfterSignal(s2.g.log, via)
  {
    LogStep(s, t, a, s2);
    var n := |s.g.log|;
    assert forall i :: 0 <= i < n ==> s2.g.log[i] == s.g.log[i];
    forall i, j | 0 <= i < j < |s2.g.log| && s2.g.log[i].Signalled? && s2.g.log[i].via == via
      ensures OwnerOf(s2.g.log[j]) != Some(DriverToken(via))
    {
      if j == n { StepIsSilent(s, t, a, s2, via, i); }
    }
  }

  lemma {:induction false} DriversEndWithTheirSignal(sched: Schedule, via: Driver)
    requires Execute(sched).Some?
    ensures SilentAfterSignal(Execute(sched).value.g.log, via)
  {
    if sched != [] {
      var prefix, last := sched[..|sched| - 1], sched[|sched| - 1];
      EveryScheduleKeepsInv(prefix);
      NoDriverGetsLost(prefix, via);
      DriversEndWithTheirSignal(prefix, via);
      SilenceIsKept(Execute(prefix).value, last.0, last.1, Execute(sched).value, via);
    }
  }

  // -- The signal that closed the channel -----------------------------------------

  /** What an emergency notification does, from closing the gate to cancelling the context. */
  function EmergencyWay(): seq<Event> {
    [NoticeBegun(Emergency), HandlerDone, CleanupStarted, CleanupDone, CtxCancelled(Notice)]
  }

  /** The notification is over before r: the host's handler is done, on an emergency the whole
      way in its order, and nothing of the notification follows. */
  ghost predicate NoticeIsOver(log: Log, r: nat)
    requires r <= |log|
  {
    && HandlerDone in log[..r]
    && (NoticeBegun(Emergency) in log ==> InOrder(log[..r], EmergencyWay()))
    && (forall j :: r <= j < |log| ==> OwnerOf(log[j]) != Some(NoticeToken))
  }

  /** The whole way of a winner that closes the channel. */
  function WinnersWay(k: nat): seq<Event> {
    [StopWon(k), ShutdownStarted(k), ShutdownEnded(k), CtxCancelled(Winner(k)), Signalled(Winner(k), true)]
  }

  lemma CloserComesFirst(log: Log, i: nat, r: nat)
    requires WellOrdered(log) && i < |log| && r < |log|
    requires log[i].Signalled? && log[i].closedNow && log[r] == RunReturned(0)
    ensures i < r
  {
    AllowedAt(log, r);
    var x := FirstSignalCloses(log[..r]);
    assert log[x].Signalled? && log[x].closedNow;
    assert x < i ==> HasSignal(log[..i]) by { assert x < i ==> log[..i][x] == log[x]; }
    AllowedAt(log, i);
  }

  lemma WinnerClosed(log: Log, i: nat, r: nat, k: nat)
    requires WellOrdered(log) && i < r < |log| && log[i] == Signalled(Winner(k), true)
    ensures InOrder(log[..r], WinnersWay(k))
  {
    AllowedAt(log, i);
    var x :| 0 <= x < i && log[..i][x] == CtxCancelled(Winner(k));
    WinnerHistory(log, x, k);
    assert WinnersWay(k)[..3] == [StopWon(k), ShutdownStarted(k), ShutdownEnded(k)];
    InOrderThen(log, i, x, WinnersWay(k)[..3], WinnersWay(k)[..4]);
    InOrderThen(log, r, i, WinnersWay(k)[..4], WinnersWay(k));
  }

  lemma InOrderInLonger(log: Log, i: nat, r: nat, es: seq<Event>)
    requires i <= r <= |log| && InOrder(log[..i], es)
    ensures InOrder(log[..r], es)
  {
    if es != [] {
      var x :| 0 <= x < i && log[..i][x] == es[|es| - 1] && InOrder(log[..i][..x], es[..|es| - 1]);
      assert log[..i][..x] == log[..r][..x] && log[..r][x] == es[|es| - 1];
    }
  }

  /** Behind its signal the notification is over, whoever closed the channel. */
  lemma OverBehindItsSignal(sched: Schedule, i: nat, r: nat)
    requires Execute(sched).Some? && i < r <= |Execute(sched).value.g.log|
    requires var e := Execute(sched).value.g.log[i]; e.Signalled? && e.via == Notice
    ensures NoticeIsOver(Execute(sched).value.g.log, r)
    ensures var log := Execute(sched).value.g.log;
            HandlerDone in log[..i] && (NoticeBegun(Emergency) in log ==> InOrder(log[..i], EmergencyWay()))
  {
    EveryScheduleKeepsInv(sched);
    var log := Execute(sched).value.g.log;
    NoticeSignalHistory(log, i);
    assert forall e :: e in log[..i] ==> e in log[..r];
    DriversEndWithTheirSignal(sched, Notice);
    if NoticeBegun(Emergency) in log { InOrderInLonger(log, i, r, EmergencyWay()); }
  }

  /** The signal that closed the channel precedes every successful return of run and decides
      what the host may still see: if it is the notification's, the notification is over,
      whatever stops have won, and the channel closed after the handler, the cleanup and the
      cancellation; otherwise it is a winner's, and that winner's whole way came first. */
  lemma TheCloserDecides(sched: Schedule, i: nat, r: nat)
    requires Execute(sched).Some?
    requires i < |Execute(sched).value.g.log| && r < |Execute(sched).value.g.log|
    requires var e := Execute(sched).value.g.log[i]; e.Signalled? && e.closedNow
    requires Execute(sched).value.g.log[r] == RunReturned(0)
    ensures i < r
    ensures var log := Execute(sched).value.g.log;
            match log[i].via
            case Notice =>
              && NoticeIsOver(log, r) && HandlerDone in log[..i]
              && (NoticeBegun(Emergency) in log ==> InOrder(log[..i], EmergencyWay()))
            case Winner(k) => InOrder(log[..r], WinnersWay(k))
  {
    EveryScheduleKeepsInv(sched);
    var log := Execute(sched).value.g.log;
    CloserComesFirst(log, i, r);
    match log[i].via
    case Notice => OverBehindItsSignal(sched, i, r);
    case Winner(k) => WinnerClosed(log, i, r, k);
  }

  /** A run that returns 0 with the handler unfinished, or with anything of the notification
      still to come, was released by a stop that won, saw its Shutdown end, cancelled and
      signalled. */
  lemma OnlyAWinnerReleasesEarly(sched: Schedule, r: nat) returns (k: nat)
    requires Execute(sched).Some? && r < |Execute(sched).value.g.log|
    requires Execute(sched).value.g.log[r] == RunReturned(0)
    requires !NoticeIsOver(Execute(sched).value.g.log, r)
    ensures InOrder(Execute(sched).value.g.log[..r], WinnersWay(k))
  {
    EveryScheduleKeepsInv(sched);
    var log := Execute(sched).value.g.log;
    AllowedAt(log, r);
    var i := FirstSignalCloses(log[..r]);
    assert log[i] == log[..r][i];
    TheCloserDecides(sched, i, r);
    k := log[i].via.ticket;
  }

  /** Without a gate winner the notification is over whenever run returns 0. */
  lemma EmergencyExitOrder(sched: Schedule, r: nat)
    requires Execute(sched).Some? && r < |Execute(sched).value.g.log|
    requires Execute(sched).value.g.log[r] == RunReturned(0)
    requires !HasWin(Execute(sched).value.g.log)
    ensures NoticeIsOver(Execute(sched).value.g.log, r)
  {
    EveryScheduleKeepsInv(sched);
    var log := Execute(sched).value.g.log;
    AllowedAt(log, r);
    var i := FirstSignalCloses(log[..r]);
    assert log[i] == log[..r][i];
    SignalWithoutWin(log, i);
    TheCloserDecides(sched, i, r);
  }

  /** The run on top of thread t's stack is parked on a closed channel. */
  ghost predicate AboutToReturn(s: State, t: Tid) {
    && Stack(s, t) != [] && Top(Stack(s, t)).RunF? && Top(Stack(s, t)).run.RunPark?
    && s.g.closed
  }

  /** What the host sees of the notification. */
  predicate IsHostEvent(e: Event) {
    e.NoticeBegun? || e.HandlerDone? || e.CleanupStarted? || e.CleanupDone?
  }

  /** The host's handler has run, and on an emergency the broker cleanup. */
  predicate HostIsDone(log: Log) {
    HandlerDone in log && (NoticeBegun(Emergency) in log ==> CleanupDone in log)
  }

  /** The promise: in every way the run may return and the system go on, the return is the
      last event the host sees. */
  ghost predicate ReturnIsLast(sched: Schedule, t: Tid)
    requires Execute(sched).Some?
  {
    forall more: Schedule, j: nat ::
      Execute(sched + [(t, Advance(Succeeds))] + more).Some?
      && |Execute(sched).value.g.log| <= j < |Execute(sched + [(t, Advance(Succeeds))] + more).value.g.log| ==>
      !IsHostEvent(Execute(sched + [(t, Advance(Succeeds))] + more).value.g.log[j])
  }

  /** Logs only grow along a schedule. */
  lemma {:induction false} LogsGrow(sched: Schedule, more: Schedule)
    requires Execute(sched + more).Some?
    ensures Execute(sched).Some?
    ensures var log, log2 := Execute(sched).value.g.log, Execute(sched + more).value.g.log;
            |log| <= |log2| && log2[..|log|] == log
    decreases |more|
  {
    var whole := sched + more;
    if more == [] {
      assert whole == sched;
    } else {
      var prefix, last := whole[..|whole| - 1], whole[|whole| - 1];
      assert prefix == sched + more[..|more| - 1];
      LogsGrow(sched, more[..|more| - 1]);
      EveryScheduleKeepsInv(prefix);
      LogStep(Execute(prefix).value, last.0, last.1, Execute(whole).value);
    }
  }

  lemma OneMoreStep(sched: Schedule, t: Tid, a: Action)
    requires Execute(sched).Some?
    ensures Execute(sched + [(t, a)]) == Apply(Execute(sched).value, t, a)
  {
    var whole := sched + [(t, a)];
    assert whole[..|whole| - 1] == sched;
  }

  lemma HandlerBegins(sched: Schedule, t: Tid)
    requires Execute(sched).Some? && MayCallIn(Execute(sched).value, t)
    requires Execute(sched).value.g.ready && !Execute(sched).value.g.noticed
    ensures Execute(sched + [(t, Notify(Graceful))]).Some?
    ensures var s, s2 := Execute(sched).value, Execute(sched + [(t, Notify(Graceful))]).value;
            s2.g.log == s.g.log && Stack(s2, t) == Stack(s, t) + [NoticeF(NoticeStore(Graceful))]
  {
    OneMoreStep(sched, t, Notify(Graceful));
  }

  lemma NoticeStoreSteps(sched: Schedule, t: Tid, fs: seq<Frame>)
    requires Execute(sched).Some? && Stack(Execute(sched).value, t) == fs + [NoticeF(NoticeStore(Graceful))]
    ensures Execute(sched + [(t, Advance(Succeeds))]).Some?
    ensures var s, s2 := Execute(sched).value, Execute(sched + [(t, Advance(Succeeds))]).value;
            && s2.g.log == s.g.log + [NoticeBegun(Graceful)]
            && Stack(s2, t) == fs + [NoticeF(NoticeHandler(Graceful))]
  {
    OneMoreStep(sched, t, Advance(Succeeds));
  }

  lemma NoticeHandlerSteps(sched: Schedule, t: Tid, fs: seq<Frame>)
    requires Execute(sched).Some? && Stack(Execute(sched).value, t) == fs + [NoticeF(NoticeHandler(Graceful))]
    ensures Execute(sched + [(t, Advance(Succeeds))]).Some?
    ensures var s, s2 := Execute(sched).value, Execute(sched + [(t, Advance(Succeeds))]).value;
            s2.g.log == s.g.log + [HandlerDone]
  {
    OneMoreStep(sched, t, Advance(Succeeds));
  }

  /** The engine notifies on thread t, and the host's handler runs. */
  lemma HandlerRuns(sched: Schedule, t: Tid) returns (more: Schedule)
    requires Execute(sched).Some? && MayCallIn(Execute(sched).value, t)
    requires Execute(sched).value.g.ready && !Execute(sched).value.g.noticed
    ensures Execute(sched + more).Some?
    ensures Execute(sched + more).value.g.log ==
            Execute(sched).value.g.log + [NoticeBegun(Graceful), HandlerDone]
  {
    var fs := Stack(Execute(sched).value, t);
    HandlerBegins(sched, t);
    var told := sched + [(t, Notify(Graceful))];
    NoticeStoreSteps(told, t, fs);
    var begun := told + [(t, Advance(Succeeds))];
    NoticeHandlerSteps(begun, t, fs);
    more := [(t, Notify(Graceful)), (t, Advance(Succeeds)), (t, Advance(Succeeds))];
    assert sched + more == begun + [(t, Advance(Succeeds))];
  }

  lemma RunReturns(sched: Schedule, t: Tid)
    requires Execute(sched).Some? && AboutToReturn(Execute(sched).value, t)
    ensures var s := Execute(sched).value;
            var o := Execute(sched + [(t, Advance(Succeeds))]);
            && o.Some? && o.value.g == Logged(s.g, RunReturned(0)) && s.g.ready
            && Stack(o.value, t) == Stack(s, t)[..|Stack(s, t)| - 1] && MayCallIn(o.value, t)
  {
    EveryScheduleKeepsInv(sched);
    var s := Execute(sched).value;
    TopCanStep(s, t);
    OneMoreStep(sched, t, Advance(Succeeds));
  }

  /** Before the notification the host's handler can still come after the return. */
  lemma LateHandler(sched: Schedule, t: Tid)
    requires Execute(sched).Some? && AboutToReturn(Execute(sched).value, t) && !Execute(sched).value.g.noticed
    ensures !ReturnIsLast(sched, t)
  {
    RunReturns(sched, t);
    var more := HandlerRuns(sched + [(t, Advance(Succeeds))], t);
    var n, log := |Execute(sched).value.g.log|, Execute(sched + [(t, Advance(Succeeds))] + more).value.g.log;
    assert n <= n + 2 < |log| && IsHostEvent(log[n + 2]);
  }

  /** A log that goes on to one where the host is done, goes on with an event of the host's. */
  lemma HostEventFollows(log: Log, log2: Log) returns (i: nat)
    requires |log| <= |log2| && log2[..|log|] == log
    requires !HostIsDone(log) && HostIsDone(log2) && WellOrdered(log2)
    ensures |log| <= i < |log2| && IsHostEvent(log2[i])
  {
    assert forall e :: e in log ==> e in log2;
    assert forall x :: 0 <= x < |log| ==> log2[x] == log[x];
    var e := if HandlerDone !in log then HandlerDone else CleanupDone;
    i :| 0 <= i < |log2| && log2[i] == e;
  }

  /** A notification that is still at work can go on after the return. */
  lemma LateCleanup(sched: Schedule, t: Tid)
    requires Execute(sched).Some? && AboutToReturn(Execute(sched).value, t)
    requires Execute(sched).value.g.noticed && !HostIsDone(Execute(sched).value.g.log)
    ensures !ReturnIsLast(sched, t)
  {
    RunReturns(sched, t);
    var returned := sched + [(t, Advance(Succeeds))];
    var more := NoticeCanSignal(returned);
    assert returned + more == sched + ([(t, Advance(Succeeds))] + more);
    LogsGrow(sched, [(t, Advance(Succeeds))] + more);
    SignalledIsDone(returned + more);
    var i := HostEventFollows(Execute(sched).value.g.log, Execute(returned + more).value.g.log);
  }

  lemma SignalledIsDone(sched: Schedule)
    requires Execute(sched).Some? && SignalledBy(Execute(sched).value.g.log, Notice)
    ensures HostIsDone(Execute(sched).value.g.log) && WellOrdered(Execute(sched).value.g.log)
  {
    EveryScheduleKeepsInv(sched);
    var log := Execute(sched).value.g.log;
    var i :| 0 <= i < |log| && log[i].Signalled? && log[i].via == Notice;
    NoticeSignalHistory(log, i);
    assert HandlerDone in log;
    if NoticeBegun(Emergency) in log {
      AllowedAt(log, i);
      var x :| 0 <= x < i && log[..i][x] == CtxCancelled(Notice);
      AllowedAt(log, x);
    }
  }

  /** Which notification it is stays as it was when the handler was done. */
  lemma KindIsSettled(log: Log, n: nat)
    requires WellOrdered(log) && n <= |log| && HandlerDone in log[..n]
    ensures exists b :: 0 <= b < n && log[b].NoticeBegun?
    ensures NoticeBegun(Emergency) in log ==> NoticeBegun(Emergency) in log[..n]
  {
    var h :| 0 <= h < n && log[..n][h] == HandlerDone;
    AllowedAt(log, h);
    var b :| 0 <= b < h && log[..h][b].NoticeBegun?;
    assert log[..n][b] == log[b] && log[b].NoticeBegun?;
    OnlyOneNotice(log);
  }

  lemma CleanupIsOfAnEmergency(log: Log, j: nat)
    requires WellOrdered(log) && j < |log| && (log[j] == CleanupStarted || log[j] == CleanupDone)
    ensures NoticeBegun(Emergency) in log && (log[j] == CleanupDone ==> CleanupStarted in log[..j])
  {
    AllowedAt(log, j);
    if log[j] == CleanupDone {
      var c :| 0 <= c < j && log[..j][c] == CleanupStarted;
      AllowedAt(log, c);
    }
  }

  /** Where the host is done the history admits no further event of the host's. */
  lemma DoneIsDone(log: Log, n: nat, j: nat)
    requires WellOrdered(log) && n <= j < |log| && HostIsDone(log[..n])
    ensures !IsHostEvent(log[j])
  {
    assert forall e :: e in log[..n] ==> e in log[..j];
    assert forall d, e :: 0 <= d < n && e in log[..d] ==> e in log[..j];
    KindIsSettled(log, n);
    var b :| 0 <= b < n && log[b].NoticeBegun?;
    assert log[..j][b] == NoticeBegun(log[b].reason);
    assert log[b].reason == Graceful || log[b].reason == Emergency;
    AllowedAt(log, j);
    if log[j] == CleanupStarted || log[j] == CleanupDone {
      CleanupIsOfAnEmergency(log, j);
      var d :| 0 <= d < n && log[..n][d] == CleanupDone;
      CleanupIsOfAnEmergency(log, d);
    }
  }

  lemma DoneIsSafe(sched: Schedule, t: Tid)
    requires Execute(sched).Some? && HostIsDone(Execute(sched).value.g.log)
    ensures ReturnIsLast(sched, t)
  {
    var log := Execute(sched).value.g.log;
    forall more: Schedule, j: nat | Execute(sched + [(t, Advance(Succeeds))] + more).Some?
      && |log| <= j < |Execute(sched + [(t, Advance(Succeeds))] + more).value.g.log|
      ensures !IsHostEvent(Execute(sched + [(t, Advance(Succeeds))] + more).value.g.log[j])
    {
      var whole := sched + [(t, Advance(Succeeds))] + more;
      assert whole == sched + ([(t, Advance(Succeeds))] + more);
      LogsGrow(sched, [(t, Advance(Succeeds))] + more);
      EveryScheduleKeepsInv(whole);
      DoneIsDone(Execute(whole).value.g.log, |log|, j);
    }
  }

  /** The exact condition: when a run is about to return 0, its return is the last event the
      host sees, whatever happens next, if and only if the host's handler has run and, on an
      emergency, the broker cleanup. */
  lemma ReturnIsLastExactly(sched: Schedule, t: Tid)
    requires Execute(sched).Some? && AboutToReturn(Execute(sched).value, t)
    ensures ReturnIsLast(sched, t) <==> HostIsDone(Execute(sched).value.g.log)
  {
    if HostIsDone(Execute(sched).value.g.log) {
      DoneIsSafe(sched, t);
    } else if Execute(sched).value.g.noticed {
      LateCleanup(sched, t);
    } else {
      LateHandler(sched, t);
    }
  }

  // -- A notification delivered inside Shutdown --------------------------------------

  /** Every end of winner k's Shutdown comes after the notification's signal. */
  predicate EndsAfterTheNotice(log: Log, k: nat) {
    forall i :: 0 <= i < |log| && log[i] == ShutdownEnded(k) ==> SignalledBy(log[..i], Notice)
  }

  /** The notification runs above the frame at j that is inside winner k's Shutdown. */
  ghost predicate Above(s: State, t: Tid, j: nat, k: nat) {
    && j < |Stack(s, t)| && Stack(s, t)[j].StopF? && Stack(s, t)[j].stop.StopShutdown?
    && Stack(s, t)[j].stop.ticket == k
    && ShutdownEnded(k) !in s.g.log
    && exists m :: j < m < |Stack(s, t)| && Carries(Stack(s, t)[m], Notice)
  }

  ghost predicate Delivered(s: State, t: Tid, j: nat, k: nat) {
    Above(s, t, j, k) || (SignalledBy(s.g.log, Notice) && EndsAfterTheNotice(s.g.log, k))
  }

  lemma EndsStayBehind(s: State, t: Tid, a: Action, s2: State, k: nat)
    requires Inv(s) && Apply(s, t, a) == Some(s2)
    requires SignalledBy(s.g.log, Notice) && EndsAfterTheNotice(s.g.log, k)
    ensures SignalledBy(s2.g.log, Notice) && EndsAfterTheNotice(s2.g.log, k)
  {
    LogStep(s, t, a, s2);
    assert forall e :: e in s.g.log ==> e in s2.g.log;
    forall i | 0 <= i < |s2.g.log| && s2.g.log[i] == ShutdownEnded(k) ensures SignalledBy(s2.g.log[..i], Notice) {
      if i < |s.g.log| {
        assert s2.g.log[i] == s.g.log[i] && s2.g.log[..i] == s.g.log[..i];
      } else {
        assert s2.g.log[..i] == s.g.log;
      }
    }
  }

  /** The winner below has not moved, so its Shutdown has not ended. */
  lemma NotEndedBelow(s: State, u: Tid, a: Action, s2: State, t: Tid, j: nat, k: nat)
    requires Inv(s) && Apply(s, u, a) == Some(s2) && Above(s, t, j, k)
    ensures ShutdownEnded(k) !in s2.g.log
  {
    LogStep(s, u, a, s2);
    if a.Advance? { BelowOrBeside(s, u, t, j); }
    assert TokenOf(Stack(s, t)[j]) == Some(TicketToken(k));
    assert |s2.g.log| > |s.g.log| ==> s2.g.log == s.g.log + [s2.g.log[|s.g.log|]];
  }

  lemma StaysAbove(s: State, u: Tid, c: Choice, s2: State, t: Tid, j: nat, k: nat, m: nat)
    requires Steps(s, u, c, s2) && Above(s, t, j, k) && ShutdownEnded(k) !in s2.g.log
    requires j < m < |Stack(s, t)| && Carries(Stack(s, t)[m], Notice) && !(u == t && m == |Stack(s, t)| - 1)
    ensures Above(s2, t, j, k)
  {
    OtherFramesStay(s, u, c, s2, t, j);
    OtherFramesStay(s, u, c, s2, t, m);
  }

  lemma NoticeStepsAbove(s: State, t: Tid, c: Choice, s2: State, j: nat, k: nat)
    requires Steps(s, t, c, s2) && Above(s, t, j, k) && ShutdownEnded(k) !in s2.g.log
    requires j < |Stack(s, t)| - 1 && Carries(Top(Stack(s, t)), Notice)
    ensures Delivered(s2, t, j, k)
  {
    var n := |Stack(s, t)| - 1;
    AdvanceShape(s, t, c, s2);
    DriverGoesOn(s.g, t, Top(Stack(s, t)), c, Notice);
    if LocalStep(s.g, t, Top(Stack(s, t)), c).Next? {
      OtherFramesStay(s, t, c, s2, t, j);
      assert Carries(Stack(s2, t)[n], Notice);
    } else {
      assert s2.g.log[|s.g.log|] == Signalled(Notice, !s.g.closed);
    }
  }

  lemma PushStaysAbove(s: State, u: Tid, a: Action, s2: State, t: Tid, j: nat, k: nat)
    requires Inv(s) && !a.Advance? && Apply(s, u, a) == Some(s2) && Above(s, t, j, k)
    ensures Above(s2, t, j, k)
  {
    PushShape(s, u, a, s2);
    var m :| j < m < |Stack(s, t)| && Carries(Stack(s, t)[m], Notice);
    assert Stack(s2, t)[m] == Stack(s, t)[m] && Stack(s2, t)[j] == Stack(s, t)[j];
  }

  lemma DeliveryGoesOn(s: State, u: Tid, a: Action, s2: State, t: Tid, j: nat, k: nat)
    requires Inv(s) && Apply(s, u, a) == Some(s2) && Delivered(s, t, j, k)
    ensures Delivered(s2, t, j, k)
  {
    if !Above(s, t, j, k) {
      EndsStayBehind(s, u, a, s2, k);
    } else if !a.Advance? {
      PushStaysAbove(s, u, a, s2, t, j, k);
    } else {
      NotEndedBelow(s, u, a, s2, t, j, k);
      var m :| j < m < |Stack(s, t)| && Carries(Stack(s, t)[m], Notice);
      if u == t && m == |Stack(s, t)| - 1 {
        NoticeStepsAbove(s, t, a.choice, s2, j, k);
      } else {
        StaysAbove(s, u, a.choice, s2, t, j, k, m);
      }
    }
  }

  /** The engine notifies on thread t after the schedule `before`, which has left that thread
      inside winner k's Shutdown, at frame j of its stack. */
  ghost predicate NotifiesInside(before: Schedule, t: Tid, j: nat, k: nat) {
    && Execute(before).Some? && j < |Stack(Execute(before).value, t)|
    && var f := Stack(Execute(before).value, t)[j];
       f.StopF? && f.stop.StopShutdown? && f.stop.ticket == k
  }

  lemma DeliveryBegins(before: Schedule, t: Tid, j: nat, k: nat, reason: Reason)
    requires NotifiesInside(before, t, j, k) && Execute(before + [(t, Notify(reason))]).Some?
    ensures Delivered(Execute(before + [(t, Notify(reason))]).value, t, j, k)
  {
    EveryScheduleKeepsInv(before);
    OneMoreStep(before, t, Notify(reason));
    var s, s2 := Execute(before).value, Execute(before + [(t, Notify(reason))]).value;
    PushShape(s, t, Notify(reason), s2);
    assert FrameInv(s.g, t, Stack(s, t)[j]);
    assert Carries(Stack(s2, t)[|Stack(s, t)|], Notice);
    assert Stack(s2, t)[j] == Stack(s, t)[j];
  }

  lemma {:induction false} DeliveredThroughout(before: Schedule, t: Tid, j: nat, k: nat, reason: Reason,
                                               after: Schedule)
    requires NotifiesInside(before, t, j, k)
    requires Execute(before + [(t, Notify(reason))] + after).Some?
    ensures Delivered(Execute(before + [(t, Notify(reason))] + after).value, t, j, k)
    decreases |after|
  {
    var sched := before + [(t, Notify(reason))] + after;
    if after == [] {
      assert sched == before + [(t, Notify(reason))];
      DeliveryBegins(before, t, j, k, reason);
    } else {
      var prefix, last := sched[..|sched| - 1], sched[|sched| - 1];
      assert prefix == before + [(t, Notify(reason))] + after[..|after| - 1];
      EveryScheduleKeepsInv(prefix);
      DeliveredThroughout(before, t, j, k, reason, after[..|after| - 1]);
      DeliveryGoesOn(Execute(prefix).value, last.0, last.1, Execute(sched).value, t, j, k);
    }
  }

  /** A notification delivered on a winner's own thread, inside its Shutdown, is over before
      that Shutdown returns: handler, cleanup and signal all precede ShutdownEnded. */
  lemma NestedNoticeEndsFirst(before: Schedule, t: Tid, j: nat, k: nat, reason: Reason, after: Schedule, i: nat)
    requires NotifiesInside(before, t, j, k)
    requires Execute(before + [(t, Notify(reason))] + after).Some?
    requires i < |Execute(before + [(t, Notify(reason))] + after).value.g.log|
    requires Execute(before + [(t, Notify(reason))] + after).value.g.log[i] == ShutdownEnded(k)
    ensures var log := Execute(before + [(t, Notify(reason))] + after).value.g.log;
            SignalledBy(log[..i], Notice) && HandlerDone in log[..i]
  {
    var sched := before + [(t, Notify(reason))] + after;
    EveryScheduleKeepsInv(sched);
    DeliveredThroughout(before, t, j, k, reason, after);
    var log := Execute(sched).value.g.log;
    AllowedAt(log, i);
    SignalsHaveAHistory(log[..i], Notice);
  }

  lemma NestedWinnerNeverCloses(before: Schedule, t: Tid, j: nat, k: nat, reason: Reason, after: Schedule, x: nat)
    requires NotifiesInside(before, t, j, k)
    requires Execute(before + [(t, Notify(reason))] + after).Some?
    requires x < |Execute(before + [(t, Notify(reason))] + after).value.g.log|
    ensures Execute(before + [(t, Notify(reason))] + after).value.g.log[x] != Signalled(Winner(k), true)
  {
    var sched := before + [(t, Notify(reason))] + after;
    EveryScheduleKeepsInv(sched);
    var log := Execute(sched).value.g.log;
    if log[x] == Signalled(Winner(k), true) {
      WinnersSignalHasAWin(log, x, k);
      var e :| 0 <= e < x && log[..x][e] == ShutdownEnded(k);
      NestedNoticeEndsFirst(before, t, j, k, reason, after, e);
      AllowedAt(log, x);
      assert log[..e] == log[..x][..e];
      assert HasSignal(log[..x]);
      assert false;
    }
  }

  /** So that winner never closes the channel; and when no other stop has won, the notification
      is over when run returns, on the graceful exit through stop as on an emergency inside Shutdown. */
  lemma NestedNoticeKeepsThePromise(before: Schedule, t: Tid, j: nat, k: nat, reason: Reason, after: Schedule,
                                    r: nat)
    requires NotifiesInside(before, t, j, k)
    requires Execute(before + [(t, Notify(reason))] + after).Some?
    requires r < |Execute(before + [(t, Notify(reason))] + after).value.g.log|
    requires Execute(before + [(t, Notify(reason))] + after).value.g.log[r] == RunReturned(0)
    ensures var log := Execute(before + [(t, Notify(reason))] + after).value.g.log;
            && Signalled(Winner(k), true) !in log
            && ((forall e :: e in log && e.StopWon? ==> e == StopWon(k)) ==> NoticeIsOver(log, r))
  {
    var sched := before + [(t, Notify(reason))] + after;
    EveryScheduleKeepsInv(sched);
    var log := Execute(sched).value.g.log;
    AllowedAt(log, r);
    var i := FirstSignalCloses(log[..r]);
    assert log[i] == log[..r][i];
    TheCloserDecides(sched, i, r);
    if Signalled(Winner(k), true) in log {
      var x :| 0 <= x < |log| && log[x] == Signalled(Winner(k), true);
      NestedWinnerNeverCloses(before, t, j, k, reason, after, x);
    }
    match log[i].via
    case Notice =>
    case Winner(m) => WinnersSignalHasAWin(log, i, m);
  }
}
