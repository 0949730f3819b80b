/**
  Builder::build: the init lock, the published handler pointer, its roll-back after a failed
  llingr_init, and the trampolines that dereference it without a lock.

  Boxes are numbered in allocation order. The bridge's side is one atomic step: llingr_init
  is refused once it has succeeded (LifecycleTheorems.InitPublishesOnce), and may fire the
  log trampoline on the calling thread before it returns. Worker trampolines run on threads
  of their own, and only after an init has succeeded.
 */
module Publication {
  import opened Common
  import Schedules

  type Tid = nat
  type Box = nat

  datatype Pc =
    | Enter(metrics: bool)
    | CheckInited(metrics: bool)
    | Preflight(metrics: bool)
    | Swap(metrics: bool)
    | CheckPrevious(metrics: bool, box: Box, previous: Option<Box>)
    | Restore(box: Box, previous: Option<Box>)
    | RestoreFree(box: Box)
    | Register(metrics: bool, box: Box)
    | InitCall(box: Box)
    | InitLogUse(box: Box, loaded: Option<Box>)
    | InitReturned(box: Box, rc: int)
    | RollBack(rc: int)
    | RollBackFree(rc: int, published: Option<Box>)
    | SetInited
    | Leave(rc: int)
    | WorkerLoad
    | WorkerUse(loaded: Option<Box>)

  /** INIT_LOCK with its flag, HANDLERS, the boxes freed so far in order, whether llingr_init
      has succeeded, and the bandwidth callback the bridge holds. `attempts`, `successes` and
      `returned` are history: the metrics setting of every build that reached registration,
      the builds that made an engine, and the code every build returned. */
  datatype Globals = Globals(
    lock: Option<Tid>,
    inited: bool,
    handlers: Option<Box>,
    nextBox: nat,
    freed: seq<Box>,
    bridgeUp: bool,
    bandwidth: bool,
    attempts: seq<bool>,
    successes: nat,
    returned: seq<int>)

  datatype State = State(g: Globals, threads: map<Tid, Pc>)

  /** How a fallible step turns out; LogFirst is an init that fires the log trampoline. */
  datatype Choice = Succeeds | Fails | LogFirst

  datatype Action = Build(metrics: bool) | Trampoline | Advance(choice: Choice)

  datatype Outcome = Blocked | Next(g: Globals, pc: Pc) | Done(g: Globals)

  const START := State(Globals(None, false, None, 0, [], false, false, [], 0, []), map[])

  function Step(g: Globals, t: Tid, pc: Pc, c: Choice): Outcome {
    match pc
    case Enter(metrics) =>
      if g.lock.Some? then Blocked else Next(g.(lock := Some(t)), CheckInited(metrics))
    case CheckInited(metrics) => if g.inited then Next(g, Leave(-1)) else Next(g, Preflight(metrics))
    case Preflight(metrics) => if c.Fails? then Next(g, Leave(-6)) else Next(g, Swap(metrics))
    case Swap(metrics) =>
      Next(g.(handlers := Some(g.nextBox), nextBox := g.nextBox + 1),
           CheckPrevious(metrics, g.nextBox, g.handlers))
    case CheckPrevious(metrics, box, previous) =>
      if previous.Some? then Next(g, Restore(box, previous)) else Next(g, Register(metrics, box))
    case Restore(box, previous) => Next(g.(handlers := previous), RestoreFree(box))
    case RestoreFree(box) => Next(g.(freed := g.freed + [box]), Leave(-1))
    case Register(metrics, box) =>
      Next(g.(bandwidth := g.bandwidth || metrics, attempts := g.attempts + [metrics]), InitCall(box))
    case InitCall(box) =>
      if c.LogFirst? then Next(g, InitLogUse(box, g.handlers))
      else if g.bridgeUp then Next(g, InitReturned(box, -1))
      else if c.Fails? then Next(g, InitReturned(box, -4))
      else Next(g.(bridgeUp := true), InitReturned(box, 0))
    case InitLogUse(box, _) => Next(g, InitCall(box))
    case InitReturned(box, rc) => if rc != 0 then Next(g, RollBack(rc)) else Next(g, SetInited)
    case RollBack(rc) => Next(g.(handlers := None), RollBackFree(rc, g.handlers))
    case RollBackFree(rc, published) =>
      Next(if published.Some? then g.(freed := g.freed + [published.value]) else g, Leave(rc))
    case SetInited => Next(g.(inited := true, successes := g.successes + 1), Leave(0))
    case Leave(rc) => Done(g.(lock := None, returned := g.returned + [rc]))
    case WorkerLoad => Next(g, WorkerUse(g.handlers))
    case WorkerUse(_) => Done(g)
  }

  function Apply(s: State, t: Tid, a: Action): Option<State> {
    match a
    case Build(metrics) =>
      if t in s.threads then None else Some(State(s.g, s.threads[t := Enter(metrics)]))
    case Trampoline =>
      if t in s.threads || !s.g.bridgeUp then None else Some(State(s.g, s.threads[t := WorkerLoad]))
    case Advance(c) =>
      if t !in s.threads then None
      else
        match Step(s.g, t, s.threads[t], c)
        case Blocked => None
        case Next(g, pc) => Some(State(g, s.threads[t := pc]))
        case Done(g) => Some(State(g, s.threads - {t}))
  }

  /** Thread and action of one step of a schedule. */
  function Act(s: State, step: (Tid, Action)): Option<State> {
    Apply(s, step.0, step.1)
  }

  type Schedule = seq<(Tid, Action)>
  function Execute(sched: Schedule): Option<State> {
    Schedules.Run(START, Act, sched)
  }

  // -- The invariant ---------------------------------------------------------

  predicate InLock(pc: Pc) {
    !pc.Enter? && !pc.WorkerLoad? && !pc.WorkerUse?
  }

  /** What the lock protects between builds. */
  predicate Settled(g: Globals) {
    g.handlers.Some? == g.inited && g.bridgeUp == g.inited && (g.inited <==> 0 in g.returned)
  }

  /** Box b is published, allocated and not freed. */
  predicate Live(g: Globals, b: Box) {
    g.handlers == Some(b) && b < g.nextBox && b !in g.freed
  }

  /** Every allocated box is published or freed, but for the one given. */
  ghost predicate NothingLeaks(g: Globals, but: Option<Box>) {
    forall b :: 0 <= b < g.nextBox ==> b in g.freed || g.handlers == Some(b) || but == Some(b)
  }

  /** The box a roll-back has taken down and not yet freed. */
  function Unfreed(pc: Pc): Option<Box> {
    if pc.RollBackFree? then pc.published else None
  }

  predicate PcInv(g: Globals, pc: Pc) {
    match pc
    case Enter(_) => true
    case CheckInited(_) => Settled(g)
    case Preflight(_) => Settled(g) && !g.inited
    case Swap(_) => Settled(g) && !g.inited
    case CheckPrevious(_, box, previous) => Live(g, box) && previous.None? && !g.inited && !g.bridgeUp
    case Restore(_, _) => false
    case RestoreFree(_) => false
    case Register(_, box) => Live(g, box) && !g.inited && !g.bridgeUp
    case InitCall(box) => Live(g, box) && !g.inited && !g.bridgeUp
    case InitLogUse(box, loaded) => Live(g, box) && loaded == Some(box) && !g.inited && !g.bridgeUp
    case InitReturned(box, rc) => Live(g, box) && !g.inited && (rc == 0 <==> g.bridgeUp) && rc in {0, -4}
    case RollBack(rc) => rc == -4 && g.handlers.Some? && Live(g, g.handlers.value) && !g.inited && !g.bridgeUp
    case RollBackFree(rc, published) =>
      && rc == -4 && g.handlers.None? && !g.inited && !g.bridgeUp
      && published.Some? && published.value < g.nextBox && published.value !in g.freed
    case SetInited => !g.inited && g.bridgeUp
    case Leave(rc) =>
      && rc in {0, -1, -4, -6}
      && (if rc == 0 then g.handlers.Some? && g.inited && g.bridgeUp && 0 !in g.returned else Settled(g))
      && (rc == -1 ==> g.inited)
    case WorkerLoad => g.bridgeUp
    case WorkerUse(loaded) => g.bridgeUp && loaded.Some? && Live(g, loaded.value)
  }

  ghost predicate GlobalInv(g: Globals) {
    && (g.bridgeUp ==> g.handlers.Some? && Live(g, g.handlers.value))
    && (g.inited ==> g.bridgeUp) && (0 in g.returned ==> g.inited) && (-1 in g.returned ==> g.inited)
    && (forall i :: 0 <= i < |g.returned| ==> g.returned[i] in {0, -1, -4, -6})
    && (forall i, j :: 0 <= i < j < |g.returned| ==> !(g.returned[i] == 0 && g.returned[j] == 0))
    && (g.lock.None? ==> Settled(g))
    && (forall b :: b in g.freed ==> b < g.nextBox)
    && (forall i, j :: 0 <= i < j < |g.freed| ==> g.freed[i] != g.freed[j])
    && g.successes == (if g.inited then 1 else 0)
    && (g.bandwidth <==> true in g.attempts)
    && (g.lock.None? ==> NothingLeaks(g, None))
  }

  ghost predicate Inv(s: State) {
    && GlobalInv(s.g)
    && (forall t :: t in s.threads ==> PcInv(s.g, s.threads[t]))
    && (forall t :: t in s.threads && InLock(s.threads[t]) ==> NothingLeaks(s.g, Unfreed(s.threads[t])))
    && (forall t :: t in s.threads ==> (InLock(s.threads[t]) <==> s.g.lock == Some(t)))
    && (s.g.lock.Some? ==> s.g.lock.value in s.threads)
  }

  lemma StepKeepsGlobals(g: Globals, t: Tid, pc: Pc, c: Choice)
    requires GlobalInv(g) && PcInv(g, pc) && (InLock(pc) <==> g.lock == Some(t))
    requires InLock(pc) ==> NothingLeaks(g, Unfreed(pc))
    ensures !Step(g, t, pc, c).Blocked? ==> GlobalInv(Step(g, t, pc, c).g)
  {
  }

  lemma StepLeaksNothing(g: Globals, t: Tid, pc: Pc, c: Choice)
    requires GlobalInv(g) && PcInv(g, pc) && (InLock(pc) <==> g.lock == Some(t))
    requires InLock(pc) ==> NothingLeaks(g, Unfreed(pc))
    ensures match Step(g, t, pc, c)
            case Next(g2, pc2) => InLock(pc2) ==> NothingLeaks(g2, Unfreed(pc2))
            case _ => true
  {
  }

  lemma StepKeepsOwn(g: Globals, t: Tid, pc: Pc, c: Choice)
    requires GlobalInv(g) && PcInv(g, pc) && (InLock(pc) <==> g.lock == Some(t))
    ensures match Step(g, t, pc, c)
            case Blocked => true
            case Next(g2, pc2) =>
              PcInv(g2, pc2) && (InLock(pc2) <==> g2.lock == Some(t))
              && (g2.lock == g.lock || (g.lock == None && g2.lock == Some(t)))
            case Done(g2) => g2.lock == if InLock(pc) then None else g.lock
  {
  }

  /** A thread outside the lock is not disturbed by a step of another one. */
  lemma StepKeepsOthers(g: Globals, t: Tid, pc: Pc, c: Choice, other: Pc)
    requires GlobalInv(g) && PcInv(g, pc) && (InLock(pc) <==> g.lock == Some(t))
    requires PcInv(g, other) && !(InLock(other) && (InLock(pc) || g.lock.None?))
    requires !Step(g, t, pc, c).Blocked?
    ensures PcInv(Step(g, t, pc, c).g, other)
  {
  }

  lemma OthersKeepInv(s: State, t: Tid, c: Choice)
    requires Inv(s) && Apply(s, t, Advance(c)).Some?
    ensures var s2 := Apply(s, t, Advance(c)).value;
            forall u :: u in s2.threads && u != t ==> PcInv(s2.g, s2.threads[u])
  {
    var s2 := Apply(s, t, Advance(c)).value;
    forall u | u in s2.threads && u != t ensures PcInv(s2.g, s2.threads[u]) {
      StepKeepsOthers(s.g, t, s.threads[t], c, s.threads[u]);
    }
  }

  lemma AdvanceKeepsInv(s: State, t: Tid, c: Choice)
    requires Inv(s) && Apply(s, t, Advance(c)).Some?
    ensures Inv(Apply(s, t, Advance(c)).value)
  {
    StepKeepsGlobals(s.g, t, s.threads[t], c);
    StepKeepsOwn(s.g, t, s.threads[t], c);
    StepLeaksNothing(s.g, t, s.threads[t], c);
    OthersKeepInv(s, t, c);
  }

  lemma ApplyKeepsInv(s: State, t: Tid, a: Action)
    requires Inv(s) && Apply(s, t, a).Some?
    ensures Inv(Apply(s, t, a).value)
  {
    if a.Advance? { AdvanceKeepsInv(s, t, a.choice); }
  }

  lemma {:induction false} EveryScheduleKeepsInv(sched: Schedule)
    requires Execute(sched).Some?
    ensures Inv(Execute(sched).value)
  {
    if sched != [] {
      var prefix, last := sched[..|sched| - 1], sched[|sched| - 1];
      EveryScheduleKeepsInv(prefix);
      ApplyKeepsInv(Execute(prefix).value, last.0, last.1);
    }
  }

  // -- What follows ---------------------------------------------------------------

  /** With the lock free and no build successful, nothing is published; after a success the
      published set is live for good. No box is freed twice or leaks, and at most one build
      succeeds. */
  lemma PublicationFollowsSuccess(sched: Schedule)
    requires Execute(sched).Some?
    ensures var g := Execute(sched).value.g;
            && (g.lock.None? ==> (g.handlers.Some? <==> g.successes > 0))
            && (g.successes > 0 ==> g.handlers.Some? && g.handlers.value !in g.freed)
            && (g.lock.None? ==> NothingLeaks(g, None))
            && (forall i, j :: 0 <= i < j < |g.freed| ==> g.freed[i] != g.freed[j])
            && g.successes <= 1
  {
    EveryScheduleKeepsInv(sched);
  }

  /** Builds report truly: at most one returns 0, and with the lock free one has exactly when the
      handlers are published; every other returns a code of its own, and one that says there is an
      instance already says so only after a success. */
  lemma BuildsReportTruly(sched: Schedule)
    requires Execute(sched).Some?
    ensures var g := Execute(sched).value.g;
            && (forall i, j :: 0 <= i < j < |g.returned| ==> !(g.returned[i] == 0 && g.returned[j] == 0))
            && (g.lock.None? ==> (0 in g.returned <==> g.handlers.Some?))
            && (forall i :: 0 <= i < |g.returned| ==> g.returned[i] in {0, -1, -4, -6})
            && (-1 in g.returned ==> g.successes == 1)
  {
    EveryScheduleKeepsInv(sched);
  }

  /** What a build reports when a step of it fails: -6 for its own preparations, before anything
      is published; the init's own code otherwise, after the roll-back; and -1 when it finds an
      instance. */
  lemma FailuresHaveTheirCodes(s: State, t: Tid, c: Choice)
    requires t in s.threads && Apply(s, t, Advance(c)).Some?
    ensures var s2, pc := Apply(s, t, Advance(c)).value, s.threads[t];
            && (pc.Preflight? && c.Fails? ==> s2.g == s.g && s2.threads[t] == Leave(-6))
            && (pc.CheckInited? && s.g.inited ==> s2.g == s.g && s2.threads[t] == Leave(-1))
            && (pc.InitReturned? && pc.rc != 0 ==> s2.threads[t] == RollBack(pc.rc))
            && (pc.RollBackFree? ==> s2.threads[t] == Leave(pc.rc))
            && (pc.Leave? ==> t !in s2.threads && s2.g.returned == s.g.returned + [pc.rc])
  {
  }

  /** No thread ever finds a handler set already published, and every trampoline that has
      loaded the pointer dereferences a set that is published and not freed. */
  lemma TrampolinesReadLiveHandlers(sched: Schedule, t: Tid)
    requires Execute(sched).Some? && t in Execute(sched).value.threads
    ensures var g, pc := Execute(sched).value.g, Execute(sched).value.threads[t];
            && !pc.Restore? && !pc.RestoreFree?
            && (pc.WorkerUse? || pc.InitLogUse? ==> pc.loaded.Some? && Live(g, pc.loaded.value))
  {
    EveryScheduleKeepsInv(sched);
  }

  /** After a success no step frees a box or moves the pointer. */
  lemma SuccessIsFinal(sched: Schedule, t: Tid, a: Action)
    requires Execute(sched).Some? && Execute(sched).value.g.successes > 0
    requires Apply(Execute(sched).value, t, a).Some?
    ensures var g, g2 := Execute(sched).value.g, Apply(Execute(sched).value, t, a).value.g;
            g2.handlers == g.handlers && g2.freed == g.freed && g2.successes == g.successes
  {
    EveryScheduleKeepsInv(sched);
  }

  // -- A failed build leaves its callbacks registered ----------------------------------

  /** When a build succeeds, the bridge's bandwidth callback matches that build's own metrics
      setting exactly when it has metrics itself or no earlier attempt had. */
  lemma BandwidthMatchesThisBuild(sched: Schedule)
    requires Execute(sched).Some? && Execute(sched).value.g.attempts != []
    ensures var g := Execute(sched).value.g;
            var last := |g.attempts| - 1;
            (g.bandwidth == g.attempts[last]) <==> (g.attempts[last] || true !in g.attempts[..last])
  {
    EveryScheduleKeepsInv(sched);
    var g := Execute(sched).value.g;
    var last := |g.attempts| - 1;
    assert g.attempts == g.attempts[..last] + [g.attempts[last]];
  }

  ghost predicate Reachable(s: State) {
    Schedules.Reachable(START, Act, s)
  }

  /** A property of the start that every step keeps. The lemmas below are about any such property;
      the theorems instantiate it with reachability. */
  ghost predicate Closed(p: State -> bool) {
    Schedules.Closed(START, Act, p)
  }

  lemma Then(p: State -> bool, s: State, t: Tid, a: Action) returns (s2: State)
    requires Closed(p) && p(s) && Apply(s, t, a).Some?
    ensures p(s2) && s2 == Apply(s, t, a).value
  {
    Schedules.StepKeeps(START, Act, p, s, (t, a));
    s2 := Apply(s, t, a).value;
  }

  ghost predicate Idle(g: Globals) {
    g.lock.None? && !g.inited && g.handlers.None? && !g.bridgeUp
  }

  lemma Swapped(p: State -> bool, s0: State, t: Tid, metrics: bool) returns (s: State)
    requires Closed(p) && p(s0) && t !in s0.threads && Idle(s0.g)
    ensures p(s) && s.threads == s0.threads[t := CheckPrevious(metrics, s0.g.nextBox, None)]
    ensures s.g == s0.g.(lock := Some(t), handlers := Some(s0.g.nextBox), nextBox := s0.g.nextBox + 1)
  {
    s := Then(p, s0, t, Build(metrics));
    s := Then(p, s, t, Advance(Succeeds));
    s := Then(p, s, t, Advance(Succeeds));
    s := Then(p, s, t, Advance(Succeeds));
    s := Then(p, s, t, Advance(Succeeds));
  }

  /** A build that has published and registered, and calls llingr_init. */
  lemma Registered(p: State -> bool, s0: State, t: Tid, metrics: bool) returns (s: State)
    requires Closed(p) && p(s0) && t !in s0.threads && Idle(s0.g)
    ensures p(s) && s.threads == s0.threads[t := InitCall(s0.g.nextBox)]
    ensures s.g == s0.g.(lock := Some(t), handlers := Some(s0.g.nextBox), nextBox := s0.g.nextBox + 1,
              bandwidth := s0.g.bandwidth || metrics, attempts := s0.g.attempts + [metrics])
  {
    s := Swapped(p, s0, t, metrics);
    s := Then(p, s, t, Advance(Succeeds));
    s := Then(p, s, t, Advance(Succeeds));
  }

  lemma FailingBuild(p: State -> bool, s0: State, t: Tid, metrics: bool) returns (s: State)
    requires Closed(p) && p(s0) && t !in s0.threads && Idle(s0.g)
    ensures p(s) && t !in s.threads && Idle(s.g) && s.g.successes == s0.g.successes
    ensures s.g.bandwidth == (s0.g.bandwidth || metrics) && s.g.attempts == s0.g.attempts + [metrics]
  {
    s := Registered(p, s0, t, metrics);
    s := Then(p, s, t, Advance(Fails));
    s := Then(p, s, t, Advance(Succeeds));
    s := Then(p, s, t, Advance(Succeeds));
    s := Then(p, s, t, Advance(Succeeds));
    s := Then(p, s, t, Advance(Succeeds));
  }

  lemma FailThenRetry(p: State -> bool) returns (s: State)
    requires Closed(p)
    ensures p(s) && s.g.successes == 1
    ensures s.g.attempts == [true, false] && s.g.bandwidth
  {
    s := FailingBuild(p, START, 0, true);
    s := Registered(p, s, 0, false);
    s := Then(p, s, 0, Advance(Succeeds));
    s := Then(p, s, 0, Advance(Succeeds));
    s := Then(p, s, 0, Advance(Succeeds));
  }

  /** A build without metrics inherits the bandwidth collection of one that failed. */
  lemma RetryWithoutMetricsKeepsBandwidth() returns (s: State)
    ensures Reachable(s) && s.g.successes == 1
    ensures s.g.attempts == [true, false] && s.g.bandwidth
  {
    Schedules.ReachableIsClosed(START, Act);
    s := FailThenRetry(x => Reachable(x));
  }
}
