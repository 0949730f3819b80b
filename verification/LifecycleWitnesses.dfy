/** Concrete schedules: where a promise one could read into the source fails, and that the bound
    on Shutdowns is reached. */
module LifecycleWitnesses {
  import opened Common
  import opened Lifecycle
  import Schedules

  ghost predicate Reachable(s: State) {
    Schedules.Reachable(START, Act, s)
  }

  /** A property of the start that every step keeps. The lemmas below are about any such property;
      the theorems instantiate it with reachability. */
  ghost predicate Closed(p: State -> bool) {
    Schedules.Closed(START, Act, p)
  }

  type Threads = map<Tid, seq<Frame>>

  /** One successful step of the only frame of thread t. */
  lemma Go(p: State -> bool, s: State, base: Threads, t: Tid, f: Frame) returns (s2: State)
    requires Closed(p) && p(s) && s.threads == base[t := [f]] && !LocalStep(s.g, t, f, Succeeds).Blocked?
    ensures p(s2) && s2.g == LocalStep(s.g, t, f, Succeeds).g
    ensures s2.threads == base[t := match LocalStep(s.g, t, f, Succeeds) case Next(_, f2) => [f2] case _ => []]
  {
    assert Stack(s, t) == [f] && [f][..0] == [];
    var o := LocalStep(s.g, t, f, Succeeds);
    if o.Next? { assert [f][..0] + [o.frame] == [o.frame]; }
    Schedules.StepKeeps(START, Act, p, s, (t, Advance(Succeeds)));
    s2 := Apply(s, t, Advance(Succeeds)).value;
  }

  lemma Begin(p: State -> bool, s: State, t: Tid, a: Action) returns (s2: State)
    requires Closed(p) && p(s) && Stack(s, t) == [] && !a.Advance?
    requires a.Notify? ==> s.g.ready && !s.g.noticed
    ensures p(s2) && s2.g == s.g.(noticed := s.g.noticed || a.Notify?)
    ensures s2.threads == s.threads[t := [if a.Call? then Entry(a.op) else NoticeF(NoticeStore(a.reason))]]
  {
    var f := if a.Call? then Entry(a.op) else NoticeF(NoticeStore(a.reason));
    assert Stack(s, t) + [f] == [f];
    Schedules.StepKeeps(START, Act, p, s, (t, a));
    s2 := Apply(s, t, a).value;
  }

  lemma Unchanged(m: Threads, t: Tid, fs: seq<Frame>)
    requires t in m && m[t] == fs
    ensures m == m[t := fs]
  {
  }

  const PUBLISHED := Shared(None, None, true, Some(0), true, true, false, false, true, {}, {}, 1, true, false, [])

  lemma Building(p: State -> bool) returns (s: State)
    requires Closed(p)
    ensures p(s) && s.g == START.g.(initMu := Some(0)) && s.threads == map[0 := [InitF(InitLog)]]
  {
    var m := START.threads;
    s := Begin(p, START, 0, Call(Init));
    s := Go(p, s, m, 0, InitF(InitEnter));
    s := Go(p, s, m, 0, InitF(InitCheckLock));
    s := Go(p, s, m, 0, InitF(InitCheckRead));
    s := Go(p, s, m, 0, InitF(InitCheckUnlock(false)));
    s := Go(p, s, m, 0, InitF(InitParse(false)));
  }

  lemma Built(p: State -> bool) returns (s: State)
    requires Closed(p)
    ensures p(s) && s.g == START.g.(initMu := Some(0), mu := Some(0), nextCtx := 1, cancel := Some(0))
    ensures s.threads == map[0 := [InitF(InitPubConsumer)]]
  {
    var m := START.threads;
    s := Building(p);
    s := Go(p, s, m, 0, InitF(InitLog));
    s := Go(p, s, m, 0, InitF(InitBuild(0)));
    s := Go(p, s, m, 0, InitF(InitPubLock(0)));
    s := Go(p, s, m, 0, InitF(InitPubCancel(0)));
  }

  lemma Publishing(p: State -> bool) returns (s: State)
    requires Closed(p)
    ensures p(s) && s.g == PUBLISHED.(initMu := Some(0), mu := Some(0), sealed := false, ready := false)
    ensures s.threads == map[0 := [InitF(InitPubUnlock)]]
  {
    var m := START.threads;
    s := Built(p);
    s := Go(p, s, m, 0, InitF(InitPubConsumer));
    s := Go(p, s, m, 0, InitF(InitPubCleanup));
    s := Go(p, s, m, 0, InitF(InitPubDone));
  }

  lemma Initialised(p: State -> bool) returns (s: State)
    requires Closed(p)
    ensures p(s) && s.g == PUBLISHED && s.threads == map[0 := []]
  {
    var m := START.threads;
    s := Publishing(p);
    s := Go(p, s, m, 0, InitF(InitPubUnlock));
    s := Go(p, s, m, 0, InitF(InitSeal));
    s := Go(p, s, m, 0, InitF(InitLeave(0)));
  }

  /** The globals once init has published, with the gate closed and no lock held. */
  function Up(closed: bool, cancelled: set<Ctx>, log: Log): Shared {
    PUBLISHED.(closed := closed, cancelled := cancelled, log := log)
  }

  /** A run on thread t parks. */
  lemma Park(p: State -> bool, s0: State, t: Tid, closed: bool, cancelled: set<Ctx>, log: Log) returns (s: State)
    requires Closed(p) && p(s0) && s0.g == Up(closed, cancelled, log) && Stack(s0, t) == []
    ensures p(s) && s.g == Up(closed, cancelled, log + [GateOpened]).(gate := true)
    ensures s.threads == s0.threads[t := [RunF(RunPark(true))]]
  {
    var m := s0.threads;
    s := Begin(p, s0, t, Call(Run));
    s := Go(p, s, m, t, RunF(RunLock));
    s := Go(p, s, m, t, RunF(RunReadConsumer));
    s := Go(p, s, m, t, RunF(RunReadDone(true)));
    s := Go(p, s, m, t, RunF(RunUnlock(true, true)));
    s := Go(p, s, m, t, RunF(RunOpen(true, true)));
    s := Go(p, s, m, t, RunF(RunSubscribe(true)));
  }

  /** A stop on thread t wins the gate and is inside Shutdown. */
  lemma Win(p: State -> bool, s0: State, t: Tid, closed: bool, cancelled: set<Ctx>, log: Log) returns (s: State)
    requires Closed(p) && p(s0) && Stack(s0, t) == []
    requires s0.g == Up(closed, cancelled, log).(gate := true)
    ensures p(s)
    ensures var k := CountWins(log);
            && s.g == Up(closed, cancelled, log + [StopWon(k)] + [ShutdownStarted(k)])
            && s.threads == s0.threads[t := [StopF(StopShutdown(Some(0), k))]]
  {
    var m, k := s0.threads, CountWins(log);
    s := Begin(p, s0, t, Call(Stop));
    s := Go(p, s, m, t, StopF(StopLock));
    s := Go(p, s, m, t, StopF(StopReadConsumer));
    s := Go(p, s, m, t, StopF(StopReadCancel(true)));
    s := Go(p, s, m, t, StopF(StopUnlock(true, Some(0))));
    s := Go(p, s, m, t, StopF(StopCas(true, Some(0))));
    s := Go(p, s, m, t, StopF(StopCall(Some(0), k)));
  }

  /** Winner k's Shutdown returns, and it releases the parked runs. */
  lemma Release(p: State -> bool, s0: State, t: Tid, g0: Shared, k: nat) returns (s: State)
    requires Closed(p) && p(s0) && s0.g == g0
    requires g0.mu.None? && g0.runDone
    requires t in s0.threads && s0.threads[t] == [StopF(StopShutdown(Some(0), k))]
    ensures p(s) && s.threads == s0.threads[t := []]
    ensures s.g == g0.(closed := true, cancelled := g0.cancelled + {0},
              log := g0.log + [ShutdownEnded(k)] + [CtxCancelled(Winner(k))] + [Signalled(Winner(k), !g0.closed)])
  {
    var m := s0.threads;
    Unchanged(m, t, [StopF(StopShutdown(Some(0), k))]);
    s := Go(p, s0, m, t, StopF(StopShutdown(Some(0), k)));
    s := Go(p, s, m, t, StopF(StopCancel(Some(0), k)));
    s := Go(p, s, m, t, SigF(SigLock, Winner(k)));
    s := Go(p, s, m, t, SigF(SigRead, Winner(k)));
    s := Go(p, s, m, t, SigF(SigUnlock(true), Winner(k)));
    s := Go(p, s, m, t, SigF(SigOnce(true), Winner(k)));
  }

  // -- The bound on Shutdowns is reached -----------------------------------------

  lemma OneMoreEvent(log: Log, e: Event)
    ensures CountOpenings(log + [e]) == CountOpenings(log) + if e.GateOpened? then 1 else 0
    ensures CountShutdowns(log + [e]) == CountShutdowns(log) + if e.ShutdownStarted? then 1 else 0
  {
    assert (log + [e])[..|log + [e]| - 1] == log;
  }

  ghost predicate Idle(s: State, closed: bool, cancelled: set<Ctx>) {
    s.g == Up(closed, cancelled, s.g.log) && Stack(s, 1) == [] && Stack(s, 2) == []
  }

  lemma RoundLog(log: Log, k: nat, closed: bool) returns (log2: Log)
    ensures log2 == log + [GateOpened] + [StopWon(k)] + [ShutdownStarted(k)]
                    + [ShutdownEnded(k)] + [CtxCancelled(Winner(k))] + [Signalled(Winner(k), !closed)] + [RunReturned(0)]
    ensures CountOpenings(log2) == CountOpenings(log) + 1
    ensures CountShutdowns(log2) == CountShutdowns(log) + 1
  {
    OneMoreEvent(log, GateOpened);
    log2 := log + [GateOpened];
    OneMoreEvent(log2, StopWon(k));
    log2 := log2 + [StopWon(k)];
    OneMoreEvent(log2, ShutdownStarted(k));
    log2 := log2 + [ShutdownStarted(k)];
    OneMoreEvent(log2, ShutdownEnded(k));
    log2 := log2 + [ShutdownEnded(k)];
    OneMoreEvent(log2, CtxCancelled(Winner(k)));
    log2 := log2 + [CtxCancelled(Winner(k))];
    OneMoreEvent(log2, Signalled(Winner(k), !closed));
    log2 := log2 + [Signalled(Winner(k), !closed)];
    OneMoreEvent(log2, RunReturned(0));
    log2 := log2 + [RunReturned(0)];
  }

  /** A run opens the gate and parks, a stop wins, shuts down and releases it, it returns. */
  lemma OneRound(p: State -> bool, s0: State, closed: bool, cancelled: set<Ctx>) returns (s: State)
    requires Closed(p) && p(s0) && Idle(s0, closed, cancelled)
    ensures p(s) && Idle(s, true, cancelled + {0})
    ensures CountOpenings(s.g.log) == CountOpenings(s0.g.log) + 1
    ensures CountShutdowns(s.g.log) == CountShutdowns(s0.g.log) + 1
  {
    var log := s0.g.log;
    var k := CountWins(log + [GateOpened]);
    s := Park(p, s0, 1, closed, cancelled, log);
    s := Win(p, s, 2, closed, cancelled, log + [GateOpened]);
    s := Release(p, s, 2, s.g, k);
    Unchanged(s.threads, 1, [RunF(RunPark(true))]);
    s := Go(p, s, s.threads, 1, RunF(RunPark(true)));
    var log2 := RoundLog(log, k, closed);
    assert s.g.log == log2;
  }

  lemma {:induction false} Rounds(p: State -> bool, n: nat) returns (s: State)
    requires Closed(p)
    ensures p(s) && CountOpenings(s.g.log) == n && CountShutdowns(s.g.log) == n
    ensures Idle(s, n > 0, if n > 0 then {0} else {})
  {
    if n == 0 {
      s := Initialised(p);
    } else {
      s := Rounds(p, n - 1);
      s := OneRound(p, s, n - 1 > 0, if n - 1 > 0 then {0} else {});
    }
  }

  /** For every n there is a reachable state with n openings of the gate and n engine
      Shutdowns: each run reopens the gate, so one Shutdown is not the limit. */
  lemma ShutdownsReachTheOpenings(n: nat) returns (s: State)
    ensures Reachable(s) && CountOpenings(s.g.log) == n && CountShutdowns(s.g.log) == n
  {
    Schedules.ReachableIsClosed(START, Act);
    s := Rounds(x => Reachable(x), n);
  }

  // -- A run that returns early -----------------------------------------------------

  const STOPPING := Up(false, {}, [GateOpened, StopWon(0), ShutdownStarted(0)])

  const NOTIFYING := STOPPING.(noticed := true, log := STOPPING.log + [NoticeBegun(Emergency)])

  /** A parked run on thread 1, a winner inside Shutdown on 2, a handler running on 3. */
  lemma Racing(p: State -> bool) returns (s: State)
    requires Closed(p)
    ensures p(s) && s.g == NOTIFYING
    ensures s.threads == map[0 := [], 1 := [RunF(RunPark(true))], 2 := [StopF(StopShutdown(Some(0), 0))],
                             3 := [NoticeF(NoticeHandler(Emergency))]]
  {
    s := Initialised(p);
    s := Park(p, s, 1, false, {}, []);
    assert CountWins([GateOpened]) == 0 by { assert [GateOpened][..0] == []; }
    s := Win(p, s, 2, false, {}, [GateOpened]);
    assert [GateOpened] + [StopWon(0)] + [ShutdownStarted(0)] == STOPPING.log;
    var m := s.threads;
    s := Begin(p, s, 3, Notify(Emergency));
    s := Go(p, s, m, 3, NoticeF(NoticeStore(Emergency)));
  }

  lemma RunReturnsFirst(p: State -> bool) returns (s: State)
    requires Closed(p)
    ensures p(s) && s.g.log == NOTIFYING.log + [ShutdownEnded(0), CtxCancelled(Winner(0)), Signalled(Winner(0), true)]
                               + [RunReturned(0)]
    ensures Stack(s, 3) == [NoticeF(NoticeHandler(Emergency))]
  {
    s := Racing(p);
    s := Release(p, s, 2, NOTIFYING, 0);
    Unchanged(s.threads, 1, [RunF(RunPark(true))]);
    s := Go(p, s, s.threads, 1, RunF(RunPark(true)));
  }

  /** With a gate winner, run can return 0 while the host's shutdown handler is still
      running and before the broker cleanup has begun: an emergency notification on an
      engine thread races a stop whose Shutdown has already returned. */
  lemma RunMayReturnBeforeTheHandler() returns (s: State)
    ensures Reachable(s)
    ensures s.g.log != [] && s.g.log[|s.g.log| - 1] == RunReturned(0)
    ensures NoticeBegun(Emergency) in s.g.log && HandlerDone !in s.g.log && CleanupStarted !in s.g.log
    ensures Stack(s, 3) == [NoticeF(NoticeHandler(Emergency))]
  {
    Schedules.ReachableIsClosed(START, Act);
    s := RunReturnsFirst(x => Reachable(x));
    assert s.g.log[3] == NoticeBegun(Emergency);
  }

  lemma Reenters(p: State -> bool) returns (s: State)
    requires Closed(p)
    ensures p(s) && s.g == START.g.(initMu := Some(0)) && s.threads == map[0 := [InitF(InitLog), InitF(InitEnter)]]
  {
    s := Building(p);
    assert [InitF(InitLog)] + [InitF(InitEnter)] == [InitF(InitLog), InitF(InitEnter)];
    Schedules.StepKeeps(START, Act, p, s, (0, Call(Init)));
    s := Apply(s, 0, Call(Init)).value;
  }

  lemma NothingIsEnabled(s: State, a: Action)
    requires s.g.initMu == Some(0) && Stack(s, 0) == [InitF(InitLog), InitF(InitEnter)]
    ensures Apply(s, 0, a).None?
  {
    assert Top(Stack(s, 0)) == InitF(InitEnter);
  }

  /** A log handler that calls llingr_init from inside init waits for ever: its thread
      already holds initMu, and no action of that thread is enabled any more. */
  lemma InitFromTheLogHandlerDeadlocks() returns (s: State)
    ensures Reachable(s) && s.g.initMu == Some(0)
    ensures Stack(s, 0) == [InitF(InitLog), InitF(InitEnter)]
    ensures forall a :: Apply(s, 0, a).None?
  {
    Schedules.ReachableIsClosed(START, Act);
    s := Reenters(x => Reachable(x));
    forall a ensures Apply(s, 0, a).None? { NothingIsEnabled(s, a); }
  }
}
