/**
  The Go bridge's lifecycle protocol: any number of threads calling llingr_init,
  llingr_run, llingr_stop, llingr_emergency_stop and llingr_take_snapshot, an
  engine that notifies the shutdown callback once, and callbacks that call back in.

  Every thread owns a stack of frames, one per bridge call in progress; a frame is
  a program counter with its locals, and one step is one atomic action. A thread
  whose top frame is outside the bridge (a callout) may call back in.
 */
module Lifecycle {
  import opened Common
  import Schedules

  type Tid = nat
  type Ctx = nat

  /** The reason handed to the shutdown callback: nil, or an error. */
  datatype Reason = Graceful | Emergency

  /** Who releases a parked run: the stop that won the gate, or the shutdown callback. */
  datatype Driver = Winner(ticket: nat) | Notice

  /** What an observer of the run sees, in order. A history variable: no branch reads it,
      except that a winning stop takes the number of earlier wins as its ticket. */
  datatype Event =
    | GateOpened
    | StopWon(ticket: nat)
    | ShutdownStarted(ticket: nat)
    | ShutdownEnded(ticket: nat)
    | NoticeBegun(reason: Reason)
    | HandlerDone
    | CleanupStarted
    | CleanupDone
    | CtxCancelled(via: Driver)
    | Signalled(via: Driver, closedNow: bool)
    | RunReturned(rc: int)

  type Log = seq<Event>

  /** Engine calls that only read the consumer and forward to it. */
  datatype Peek = EmergencyShutdown | TakeSnapshot

  /** Program counters, one datatype per exported function, with the locals each one holds. */
  datatype InitPc =
    | InitEnter
    | InitCheckLock
    | InitCheckRead
    | InitCheckUnlock(already: bool)
    | InitParse(already: bool)
    | InitLog
    | InitBuild(ctx: Ctx)
    | InitAbort(ctx: Ctx, rc: int)
    | InitPanicUnlock(ctx: Ctx)
    | InitPanicCancel(ctx: Ctx)
    | InitPubLock(ctx: Ctx)
    | InitPubCancel(ctx: Ctx)
    | InitPubConsumer
    | InitPubCleanup
    | InitPubDone
    | InitPubUnlock
    | InitSeal
    | InitLeave(rc: int)

  datatype RunPc =
    | RunLock
    | RunReadConsumer
    | RunReadDone(consumer: bool)
    | RunUnlock(consumer: bool, done: bool)
    | RunOpen(consumer: bool, done: bool)
    | RunSubscribe(done: bool)
    | RunPark(done: bool)

  datatype StopPc =
    | StopLock
    | StopReadConsumer
    | StopReadCancel(consumer: bool)
    | StopUnlock(consumer: bool, cancel: Option<Ctx>)
    | StopCas(consumer: bool, cancel: Option<Ctx>)
    | StopCall(cancel: Option<Ctx>, ticket: nat)
    | StopShutdown(cancel: Option<Ctx>, ticket: nat)
    | StopCancel(cancel: Option<Ctx>, ticket: nat)

  /** signalRunDone, on behalf of a driver. */
  datatype SigPc = SigLock | SigRead | SigUnlock(done: bool) | SigOnce(done: bool)

  /** emergencyStop and llingr_take_snapshot. */
  datatype PeekPc = PeekLock | PeekRead | PeekUnlock(consumer: bool) | PeekCall(consumer: bool) | PeekEngine

  /** shutdownCallback and, from CleanLock on, emergencyBrokerCleanup. */
  datatype NoticePc =
    | NoticeStore(reason: Reason)
    | NoticeHandler(reason: Reason)
    | CleanLock
    | CleanReadCleanup
    | CleanReadCancel(cleanup: bool)
    | CleanUnlock(cleanup: bool, cancel: Option<Ctx>)
    | CleanCall(cleanup: bool, cancel: Option<Ctx>)
    | CleanRun(cancel: Option<Ctx>)
    | CleanCancel(cancel: Option<Ctx>)

  datatype Frame =
    | InitF(init: InitPc)
    | RunF(run: RunPc)
    | StopF(stop: StopPc)
    | SigF(sig: SigPc, via: Driver)
    | PeekF(peek: PeekPc, op: Peek)
    | NoticeF(notice: NoticePc)

  /** The bridge's globals. `dead` are contexts of failed builds, `ready` records that init
      has left its publishing critical section, `noticed` that the engine has spent its one
      notification. */
  datatype Shared = Shared(
    mu: Option<Tid>,
    initMu: Option<Tid>,
    consumer: bool,
    cancel: Option<Ctx>,
    cleanup: bool,
    runDone: bool,
    gate: bool,
    closed: bool,
    sealed: bool,
    cancelled: set<Ctx>,
    dead: set<Ctx>,
    nextCtx: nat,
    ready: bool,
    noticed: bool,
    log: Log)

  datatype State = State(g: Shared, threads: map<Tid, seq<Frame>>)

  /** How a callout or a fallible step turns out. */
  datatype Choice = Succeeds | Fails | Panics

  datatype HostCall = Init | Run | Stop | EmergencyStop | Snapshot

  datatype Action = Call(op: HostCall) | Notify(reason: Reason) | Advance(choice: Choice)

  const START := State(
    Shared(None, None, false, None, false, false, false, false, false, {}, {}, 0, false, false, []),
    map[])

  // -- The steps ------------------------------------------------------------

  /** Frames whose thread is outside the bridge: in the engine, the adapter build, a host
      callback or the broker cleanup. */
  predicate IsCallout(f: Frame) {
    match f
    case InitF(pc) => pc.InitLog? || pc.InitBuild?
    case RunF(pc) => pc.RunSubscribe?
    case StopF(pc) => pc.StopShutdown?
    case SigF(_, _) => false
    case PeekF(pc, _) => pc.PeekEngine?
    case NoticeF(pc) => pc.NoticeHandler? || pc.CleanRun?
  }

  datatype Outcome = Blocked | Next(g: Shared, frame: Frame) | Return(g: Shared)

  function Logged(g: Shared, e: Event): Shared {
    g.(log := g.log + [e])
  }

  function Cancelling(g: Shared, cancel: Option<Ctx>, via: Driver): Shared {
    if cancel.None? then g
    else Logged(g.(cancelled := g.cancelled + {cancel.value}), CtxCancelled(via))
  }

  function LockMu(g: Shared, t: Tid, next: Frame): Outcome {
    if g.mu.Some? then Blocked else Next(g.(mu := Some(t)), next)
  }

  function UnlockMu(g: Shared, next: Frame): Outcome {
    Next(g.(mu := None), next)
  }

  function InitStep(g: Shared, t: Tid, pc: InitPc, c: Choice): Outcome {
    match pc
    case InitEnter =>
      if g.initMu.Some? then Blocked else Next(g.(initMu := Some(t)), InitF(InitCheckLock))
    case InitCheckLock => LockMu(g, t, InitF(InitCheckRead))
    case InitCheckRead => Next(g, InitF(InitCheckUnlock(g.consumer)))
    case InitCheckUnlock(already) => UnlockMu(g, InitF(InitParse(already)))
    case InitParse(already) =>
      if already then Next(g, InitF(InitLeave(-1)))
      else (match c
            case Succeeds => Next(g, InitF(InitLog))
            case Fails => Next(g, InitF(InitLeave(-2)))
            case Panics => Next(g, InitF(InitLeave(-5))))
    case InitLog => Next(g.(nextCtx := g.nextCtx + 1), InitF(InitBuild(g.nextCtx)))
    case InitBuild(ctx) =>
      (match c
       case Succeeds => Next(g, InitF(InitPubLock(ctx)))
       case Fails => Next(g, InitF(InitAbort(ctx, -4)))
       case Panics => Next(g, InitF(InitPanicUnlock(ctx))))
    case InitAbort(ctx, rc) =>
      Next(g.(cancelled := g.cancelled + {ctx}, dead := g.dead + {ctx}), InitF(InitLeave(rc)))
    case InitPanicUnlock(ctx) =>
      Next(g.(initMu := None, dead := g.dead + {ctx}), InitF(InitPanicCancel(ctx)))
    case InitPanicCancel(ctx) => Return(g.(cancelled := g.cancelled + {ctx}))
    case InitPubLock(ctx) => LockMu(g, t, InitF(InitPubCancel(ctx)))
    case InitPubCancel(ctx) => Next(g.(cancel := Some(ctx)), InitF(InitPubConsumer))
    case InitPubConsumer => Next(g.(consumer := true), InitF(InitPubCleanup))
    case InitPubCleanup => Next(g.(cleanup := true), InitF(InitPubDone))
    case InitPubDone => Next(g.(runDone := true), InitF(InitPubUnlock))
    case InitPubUnlock => UnlockMu(g.(ready := true), InitF(InitSeal))
    case InitSeal => Next(g.(sealed := true), InitF(InitLeave(0)))
    case InitLeave(_) => Return(g.(initMu := None))
  }

  function RunStep(g: Shared, t: Tid, pc: RunPc, c: Choice): Outcome {
    match pc
    case RunLock => LockMu(g, t, RunF(RunReadConsumer))
    case RunReadConsumer => Next(g, RunF(RunReadDone(g.consumer)))
    case RunReadDone(consumer) => Next(g, RunF(RunUnlock(consumer, g.runDone)))
    case RunUnlock(consumer, done) => UnlockMu(g, RunF(RunOpen(consumer, done)))
    case RunOpen(consumer, done) =>
      if !consumer then Return(Logged(g, RunReturned(-1)))
      else Next(Logged(g.(gate := true), GateOpened), RunF(RunSubscribe(done)))
    case RunSubscribe(done) =>
      (match c
       case Succeeds => Next(g, RunF(RunPark(done)))
       case Fails => Return(Logged(g, RunReturned(-2)))
       case Panics => Return(Logged(g, RunReturned(-3))))
    case RunPark(done) =>
      if done && g.closed then Return(Logged(g, RunReturned(0))) else Blocked
  }

  function StopStep(g: Shared, t: Tid, pc: StopPc): Outcome {
    match pc
    case StopLock => LockMu(g, t, StopF(StopReadConsumer))
    case StopReadConsumer => Next(g, StopF(StopReadCancel(g.consumer)))
    case StopReadCancel(consumer) => Next(g, StopF(StopUnlock(consumer, g.cancel)))
    case StopUnlock(consumer, cancel) => UnlockMu(g, StopF(StopCas(consumer, cancel)))
    case StopCas(consumer, cancel) =>
      if consumer && g.gate then
        var ticket := CountWins(g.log);
        Next(Logged(g.(gate := false), StopWon(ticket)), StopF(StopCall(cancel, ticket)))
      else Return(g)
    case StopCall(cancel, ticket) =>
      Next(Logged(g, ShutdownStarted(ticket)), StopF(StopShutdown(cancel, ticket)))
    case StopShutdown(cancel, ticket) =>
      Next(Logged(g, ShutdownEnded(ticket)), StopF(StopCancel(cancel, ticket)))
    case StopCancel(cancel, ticket) =>
      Next(Cancelling(g, cancel, Winner(ticket)), SigF(SigLock, Winner(ticket)))
  }

  function SignalStep(g: Shared, t: Tid, pc: SigPc, via: Driver): Outcome {
    match pc
    case SigLock => LockMu(g, t, SigF(SigRead, via))
    case SigRead => Next(g, SigF(SigUnlock(g.runDone), via))
    case SigUnlock(done) => UnlockMu(g, SigF(SigOnce(done), via))
    case SigOnce(done) =>
      if !done then Return(g)
      else Return(Logged(g.(closed := true), Signalled(via, !g.closed)))
  }

  function PeekStep(g: Shared, t: Tid, pc: PeekPc, op: Peek): Outcome {
    match pc
    case PeekLock => LockMu(g, t, PeekF(PeekRead, op))
    case PeekRead => Next(g, PeekF(PeekUnlock(g.consumer), op))
    case PeekUnlock(consumer) => UnlockMu(g, PeekF(PeekCall(consumer), op))
    case PeekCall(consumer) => if consumer then Next(g, PeekF(PeekEngine, op)) else Return(g)
    case PeekEngine => Return(g)
  }

  function NoticeStep(g: Shared, t: Tid, pc: NoticePc): Outcome {
    match pc
    case NoticeStore(reason) =>
      Next(Logged(g.(gate := false), NoticeBegun(reason)), NoticeF(NoticeHandler(reason)))
    case NoticeHandler(reason) =>
      Next(Logged(g, HandlerDone), if reason.Emergency? then NoticeF(CleanLock) else SigF(SigLock, Notice))
    case CleanLock => LockMu(g, t, NoticeF(CleanReadCleanup))
    case CleanReadCleanup => Next(g, NoticeF(CleanReadCancel(g.cleanup)))
    case CleanReadCancel(cleanup) => Next(g, NoticeF(CleanUnlock(cleanup, g.cancel)))
    case CleanUnlock(cleanup, cancel) => UnlockMu(g, NoticeF(CleanCall(cleanup, cancel)))
    case CleanCall(cleanup, cancel) =>
      if cleanup then Next(Logged(g, CleanupStarted), NoticeF(CleanRun(cancel)))
      else Next(g, NoticeF(CleanCancel(cancel)))
    case CleanRun(cancel) => Next(Logged(g, CleanupDone), NoticeF(CleanCancel(cancel)))
    case CleanCancel(cancel) => Next(Cancelling(g, cancel, Notice), SigF(SigLock, Notice))
  }

  /** One step of the frame on top of thread t's stack. */
  function LocalStep(g: Shared, t: Tid, f: Frame, c: Choice): Outcome {
    match f
    case InitF(pc) => InitStep(g, t, pc, c)
    case RunF(pc) => RunStep(g, t, pc, c)
    case StopF(pc) => StopStep(g, t, pc)
    case SigF(pc, via) => SignalStep(g, t, pc, via)
    case PeekF(pc, op) => PeekStep(g, t, pc, op)
    case NoticeF(pc) => NoticeStep(g, t, pc)
  }

  function Stack(s: State, t: Tid): seq<Frame> {
    if t in s.threads then s.threads[t] else []
  }

  function Top(fs: seq<Frame>): Frame
    requires fs != []
  {
    fs[|fs| - 1]
  }

  predicate MayCallIn(s: State, t: Tid) {
    Stack(s, t) == [] || IsCallout(Top(Stack(s, t)))
  }

  function Entry(op: HostCall): Frame {
    match op
    case Init => InitF(InitEnter)
    case Run => RunF(RunLock)
    case Stop => StopF(StopLock)
    case EmergencyStop => PeekF(PeekLock, EmergencyShutdown)
    case Snapshot => PeekF(PeekLock, TakeSnapshot)
  }

  function Push(s: State, t: Tid, g: Shared, f: Frame): State {
    State(g, s.threads[t := Stack(s, t) + [f]])
  }

  /** The state after thread t takes action a; None when it cannot. The engine's contract is
      the Notify guard: at most one notification, never before init has published, on a
      thread of its own or inside any callout. */
  function Apply(s: State, t: Tid, a: Action): Option<State> {
    match a
    case Call(op) =>
      if MayCallIn(s, t) then Some(Push(s, t, s.g, Entry(op))) else None
    case Notify(reason) =>
      if MayCallIn(s, t) && s.g.ready && !s.g.noticed then
        Some(Push(s, t, s.g.(noticed := true), NoticeF(NoticeStore(reason))))
      else None
    case Advance(c) =>
      var fs := Stack(s, t);
      if fs == [] then None
      else
        match LocalStep(s.g, t, Top(fs), c)
        case Blocked => None
        case Next(g, f) => Some(State(g, s.threads[t := fs[..|fs| - 1] + [f]]))
        case Return(g) => Some(State(g, s.threads[t := fs[..|fs| - 1]]))
  }

  /** Thread and action of one step of a schedule. */
  function Act(s: State, step: (Tid, Action)): Option<State> {
    Apply(s, step.0, step.1)
  }

  type Schedule = seq<(Tid, Action)>

  /** The state a schedule leads to from the start; None when some action in it is disabled. */
  function Execute(sched: Schedule): Option<State> {
    Schedules.Run(START, Act, sched)
  }

  // -- The history ----------------------------------------------------------

  function CountWins(log: Log): nat {
    if log == [] then 0
    else CountWins(log[..|log| - 1]) + if log[|log| - 1].StopWon? then 1 else 0
  }

  function CountOpenings(log: Log): nat {
    if log == [] then 0
    else CountOpenings(log[..|log| - 1]) + if log[|log| - 1].GateOpened? then 1 else 0
  }

  function CountShutdowns(log: Log): nat {
    if log == [] then 0
    else CountShutdowns(log[..|log| - 1]) + if log[|log| - 1].ShutdownStarted? then 1 else 0
  }

  /** The gate as its last opening or closing left it. */
  function GateOf(log: Log): bool {
    if log == [] then false
    else
      var e := log[|log| - 1];
      if e.GateOpened? then true
      else if e.StopWon? || e.NoticeBegun? then false
      else GateOf(log[..|log| - 1])
  }

  predicate HasSignal(log: Log) {
    exists i :: 0 <= i < |log| && log[i].Signalled?
  }

  predicate HasCancel(log: Log) {
    exists i :: 0 <= i < |log| && log[i].CtxCancelled?
  }

  predicate HasWin(log: Log) {
    exists i :: 0 <= i < |log| && log[i].StopWon?
  }

  /** What must already have happened for e to be the next event. */
  predicate Allowed(log: Log, e: Event) {
    match e
    case GateOpened => true
    case StopWon(k) => k == CountWins(log) && GateOf(log)
    case ShutdownStarted(k) => StopWon(k) in log && ShutdownStarted(k) !in log
    case ShutdownEnded(k) => ShutdownStarted(k) in log
    case NoticeBegun(_) => NoticeBegun(Graceful) !in log && NoticeBegun(Emergency) !in log
    case HandlerDone =>
      && (NoticeBegun(Graceful) in log || NoticeBegun(Emergency) in log) && HandlerDone !in log
    case CleanupStarted =>
      && NoticeBegun(Emergency) in log && HandlerDone in log && CleanupStarted !in log
    case CleanupDone => CleanupStarted in log && CleanupDone !in log
    case CtxCancelled(Winner(k)) => ShutdownEnded(k) in log
    case CtxCancelled(Notice) => CleanupDone in log
    case Signalled(via, closedNow) =>
      && closedNow == !HasSignal(log)
      && (match via
          case Winner(k) => CtxCancelled(Winner(k)) in log
          case Notice =>
            && HandlerDone in log
            && (NoticeBegun(Emergency) in log ==> CtxCancelled(Notice) in log))
    case RunReturned(rc) => rc == 0 ==> HasSignal(log)
  }

  ghost predicate WellOrdered(log: Log) {
    log == [] || (WellOrdered(log[..|log| - 1]) && Allowed(log[..|log| - 1], log[|log| - 1]))
  }

  // -- The invariant --------------------------------------------------------

  /** What at most one frame anywhere may carry. */
  datatype Token = InitToken | NoticeToken | TicketToken(ticket: nat)

  function DriverToken(via: Driver): Token {
    match via
    case Winner(k) => TicketToken(k)
    case Notice => NoticeToken
  }

  function TokenOf(f: Frame): Option<Token> {
    match f
    case InitF(pc) => if pc.InitEnter? || pc.InitPanicCancel? then None else Some(InitToken)
    case RunF(_) => None
    case StopF(pc) =>
      if pc.StopCall? || pc.StopShutdown? || pc.StopCancel? then Some(TicketToken(pc.ticket)) else None
    case SigF(_, via) => Some(DriverToken(via))
    case PeekF(_, _) => None
    case NoticeF(_) => Some(NoticeToken)
  }

  /** The events that only the holder of a token may record. */
  function OwnerOf(e: Event): Option<Token> {
    match e
    case GateOpened => None
    case StopWon(_) => None
    case RunReturned(_) => None
    case ShutdownStarted(k) => Some(TicketToken(k))
    case ShutdownEnded(k) => Some(TicketToken(k))
    case CtxCancelled(via) => Some(DriverToken(via))
    case Signalled(via, _) => Some(DriverToken(via))
    case NoticeBegun(_) | HandlerDone | CleanupStarted | CleanupDone => Some(NoticeToken)
  }

  predicate InMu(f: Frame) {
    match f
    case InitF(pc) =>
      || pc.InitCheckRead? || pc.InitCheckUnlock? || pc.InitPubCancel? || pc.InitPubConsumer?
      || pc.InitPubCleanup? || pc.InitPubDone? || pc.InitPubUnlock?
    case RunF(pc) => pc.RunReadConsumer? || pc.RunReadDone? || pc.RunUnlock?
    case StopF(pc) => pc.StopReadConsumer? || pc.StopReadCancel? || pc.StopUnlock?
    case SigF(pc, _) => pc.SigRead? || pc.SigUnlock?
    case PeekF(pc, _) => pc.PeekRead? || pc.PeekUnlock?
    case NoticeF(pc) => pc.CleanReadCleanup? || pc.CleanReadCancel? || pc.CleanUnlock?
  }

  predicate WantsMu(f: Frame) {
    match f
    case InitF(pc) => pc.InitCheckLock? || pc.InitPubLock?
    case RunF(pc) => pc.RunLock?
    case StopF(pc) => pc.StopLock?
    case SigF(pc, _) => pc.SigLock?
    case PeekF(pc, _) => pc.PeekLock?
    case NoticeF(pc) => pc.CleanLock?
  }

  /** Init between its first publishing write and the release of state.mu. */
  predicate IsPartial(f: Frame) {
    && f.InitF?
    && (f.init.InitPubConsumer? || f.init.InitPubCleanup? || f.init.InitPubDone? || f.init.InitPubUnlock?)
  }

  predicate PublishedAll(g: Shared) {
    g.ready && g.consumer && g.cancel.Some? && g.cleanup && g.runDone
  }

  predicate PublishedNone(g: Shared) {
    !g.ready && !g.consumer && g.cancel.None? && !g.cleanup && !g.runDone
  }

  predicate OwnsFreshCtx(g: Shared, ctx: Ctx) {
    PublishedNone(g) && ctx < g.nextCtx && ctx !in g.cancelled && ctx !in g.dead
  }

  predicate InitInv(g: Shared, pc: InitPc) {
    match pc
    case InitEnter | InitCheckLock | InitCheckRead => true
    case InitCheckUnlock(already) => if already then PublishedAll(g) else PublishedNone(g)
    case InitParse(already) => if already then PublishedAll(g) else PublishedNone(g)
    case InitLog => PublishedNone(g)
    case InitBuild(ctx) => OwnsFreshCtx(g, ctx)
    case InitAbort(ctx, rc) => OwnsFreshCtx(g, ctx) && rc == -4
    case InitPanicUnlock(ctx) => OwnsFreshCtx(g, ctx)
    case InitPanicCancel(ctx) => ctx in g.dead
    case InitPubLock(ctx) => OwnsFreshCtx(g, ctx)
    case InitPubCancel(ctx) => OwnsFreshCtx(g, ctx)
    case InitPubConsumer => !g.ready && !g.consumer && g.cancel.Some? && !g.cleanup && !g.runDone
    case InitPubCleanup => !g.ready && g.consumer && g.cancel.Some? && !g.cleanup && !g.runDone
    case InitPubDone => !g.ready && g.consumer && g.cancel.Some? && g.cleanup && !g.runDone
    case InitPubUnlock => !g.ready && PublishedAll(g.(ready := true))
    case InitSeal => PublishedAll(g)
    case InitLeave(rc) =>
      if rc == 0 then PublishedAll(g) && g.sealed
      else if rc == -1 then PublishedAll(g)
      else PublishedNone(g) && rc in {-2, -4, -5}
  }

  predicate RunInv(g: Shared, pc: RunPc) {
    match pc
    case RunLock | RunReadConsumer => true
    case RunReadDone(consumer) => consumer ==> PublishedAll(g)
    case RunUnlock(consumer, done) => consumer ==> PublishedAll(g) && done
    case RunOpen(consumer, done) => consumer ==> PublishedAll(g) && done
    case RunSubscribe(done) => PublishedAll(g) && done
    case RunPark(done) => PublishedAll(g) && done
  }

  predicate WinnerInv(g: Shared, cancel: Option<Ctx>, k: nat) {
    PublishedAll(g) && cancel == g.cancel && StopWon(k) in g.log
  }

  predicate StopInv(g: Shared, pc: StopPc) {
    match pc
    case StopLock | StopReadConsumer => true
    case StopReadCancel(consumer) => consumer ==> PublishedAll(g)
    case StopUnlock(consumer, cancel) => consumer ==> PublishedAll(g) && cancel == g.cancel
    case StopCas(consumer, cancel) => consumer ==> PublishedAll(g) && cancel == g.cancel
    case StopCall(cancel, k) =>
      WinnerInv(g, cancel, k) && ShutdownStarted(k) !in g.log && ShutdownEnded(k) !in g.log
    case StopShutdown(cancel, k) =>
      WinnerInv(g, cancel, k) && ShutdownStarted(k) in g.log && ShutdownEnded(k) !in g.log
    case StopCancel(cancel, k) => WinnerInv(g, cancel, k) && ShutdownEnded(k) in g.log
  }

  predicate SignalInv(g: Shared, pc: SigPc, via: Driver) {
    && PublishedAll(g)
    && (pc.SigUnlock? || pc.SigOnce? ==> pc.done)
    && (match via
        case Winner(k) => StopWon(k) in g.log && CtxCancelled(Winner(k)) in g.log
        case Notice =>
          && g.noticed && HandlerDone in g.log
          && (NoticeBegun(Emergency) in g.log ==> CtxCancelled(Notice) in g.log))
  }

  predicate PeekInv(g: Shared, pc: PeekPc) {
    match pc
    case PeekLock | PeekRead => true
    case PeekUnlock(consumer) => consumer ==> PublishedAll(g)
    case PeekCall(consumer) => consumer ==> PublishedAll(g)
    case PeekEngine => PublishedAll(g)
  }

  predicate NoNoticeYet(log: Log) {
    && NoticeBegun(Graceful) !in log && NoticeBegun(Emergency) !in log
    && HandlerDone !in log && CleanupStarted !in log && CleanupDone !in log
  }

  predicate CleaningInv(log: Log) {
    && NoticeBegun(Emergency) in log && HandlerDone in log
    && CleanupStarted !in log && CleanupDone !in log
  }

  predicate NoticeInv(g: Shared, pc: NoticePc) {
    && g.noticed && PublishedAll(g)
    && (match pc
        case NoticeStore(_) => NoNoticeYet(g.log)
        case NoticeHandler(reason) =>
          && NoticeBegun(reason) in g.log
          && HandlerDone !in g.log && CleanupStarted !in g.log && CleanupDone !in g.log
          && (reason.Graceful? ==> NoticeBegun(Emergency) !in g.log)
        case CleanLock | CleanReadCleanup => CleaningInv(g.log)
        case CleanReadCancel(cleanup) => cleanup && CleaningInv(g.log)
        case CleanUnlock(cleanup, cancel) => cleanup && cancel == g.cancel && CleaningInv(g.log)
        case CleanCall(cleanup, cancel) => cleanup && cancel == g.cancel && CleaningInv(g.log)
        case CleanRun(cancel) =>
          && cancel == g.cancel && HandlerDone in g.log
          && CleanupStarted in g.log && CleanupDone !in g.log
        case CleanCancel(cancel) => cancel == g.cancel && HandlerDone in g.log && CleanupDone in g.log)
  }

  predicate FrameInv(g: Shared, t: Tid, f: Frame) {
    && (InMu(f) ==> g.mu == Some(t))
    && (TokenOf(f) == Some(InitToken) ==> g.initMu == Some(t))
    && (match f
        case InitF(pc) => InitInv(g, pc)
        case RunF(pc) => RunInv(g, pc)
        case StopF(pc) => StopInv(g, pc)
        case SigF(pc, via) => SignalInv(g, pc, via)
        case PeekF(pc, _) => PeekInv(g, pc)
        case NoticeF(pc) => NoticeInv(g, pc))
  }

  ghost predicate SharedInv(g: Shared) {
    && WellOrdered(g.log)
    && g.gate == GateOf(g.log)
    && g.closed == HasSignal(g.log)
    && (!g.noticed ==> NoNoticeYet(g.log))
    && (g.ready ==> PublishedAll(g)) && (g.sealed ==> g.ready)
    && (g.noticed ==> g.ready)
    && (HasCancel(g.log) ==> PublishedAll(g))
    && (CountOpenings(g.log) > 0 ==> PublishedAll(g))
    && (g.cancel.Some? ==> (g.cancel.value in g.cancelled <==> HasCancel(g.log)))
    && (g.cancel.Some? ==> g.cancel.value !in g.dead && g.cancel.value < g.nextCtx)
    && (forall c :: c in g.dead ==> c < g.nextCtx)
    && (forall c :: c in g.cancelled ==> c < g.nextCtx)
  }

  /** Who holds a lock is inside the section it guards, and a half-published state is only
      ever visible to the init that is publishing it. */
  ghost predicate LockInv(s: State) {
    && (s.g.mu.Some? ==>
          Stack(s, s.g.mu.value) != [] && InMu(Top(Stack(s, s.g.mu.value))))
    && (s.g.initMu.Some? ==>
          exists i :: 0 <= i < |Stack(s, s.g.initMu.value)|
                      && TokenOf(Stack(s, s.g.initMu.value)[i]) == Some(InitToken))
    && (PublishedAll(s.g) || PublishedNone(s.g)
        || (s.g.mu.Some? && Stack(s, s.g.mu.value) != [] && IsPartial(Top(Stack(s, s.g.mu.value)))))
  }

  ghost predicate FramesInv(s: State) {
    && (forall t, i :: 0 <= i < |Stack(s, t)| ==> FrameInv(s.g, t, Stack(s, t)[i]))
    && (forall t, i :: 0 <= i < |Stack(s, t)| - 1 ==> IsCallout(Stack(s, t)[i]))
  }

  /** No two frames carry the same token. */
  ghost predicate TokensInv(s: State) {
    forall t, i, u, j :: 0 <= i < |Stack(s, t)| && 0 <= j < |Stack(s, u)|
      && TokenOf(Stack(s, t)[i]).Some? && TokenOf(Stack(s, t)[i]) == TokenOf(Stack(s, u)[j])
      ==> t == u && i == j
  }

  ghost predicate Inv(s: State) {
    SharedInv(s.g) && LockInv(s) && FramesInv(s) && TokensInv(s)
  }
}
