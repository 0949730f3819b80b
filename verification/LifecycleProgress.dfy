/** Every gate winner and every notification is on its way until it has signalled: none gets
    lost, and none does anything after its signal. */
module LifecycleProgress {
  import opened Common
  import opened Lifecycle
  import opened LifecycleInvariant
  import Schedules

  predicate Carries(f: Frame, via: Driver) {
    TokenOf(f) == Some(DriverToken(via))
  }

  /** A frame of the driver is on some stack. */
  ghost predicate Carried(s: State, via: Driver) {
    exists t, i :: 0 <= i < |Stack(s, t)| && Carries(Stack(s, t)[i], via)
  }

  predicate SignalledBy(log: Log, via: Driver) {
    Signalled(via, true) in log || Signalled(via, false) in log
  }

  /** The stop has won the gate, or the engine has notified. */
  predicate Started(g: Shared, via: Driver) {
    match via
    case Winner(k) => StopWon(k) in g.log
    case Notice => g.noticed
  }

  // -- One step ---------------------------------------------------------------

  /** A driver's frame either goes on as a frame of the same driver, without a signal of that
      driver, or it returns, and that step is its signal. */
  ghost predicate GoesOn(g: Shared, f: Frame, via: Driver, o: Outcome) {
    match o
    case Blocked => true
    case Next(g2, f2) => Carries(f2, via) && (SignalledBy(g2.log, via) ==> SignalledBy(g.log, via))
    case Return(g2) => g2.log == g.log + [Signalled(via, !g.closed)]
  }

  lemma StopGoesOn(g: Shared, t: Tid, pc: StopPc, via: Driver)
    requires FrameInv(g, t, StopF(pc)) && Carries(StopF(pc), via)
    ensures GoesOn(g, StopF(pc), via, StopStep(g, t, pc))
  {
  }

  lemma SignalGoesOn(g: Shared, t: Tid, pc: SigPc, v: Driver, via: Driver)
    requires FrameInv(g, t, SigF(pc, v)) && Carries(SigF(pc, v), via)
    ensures GoesOn(g, SigF(pc, v), via, SignalStep(g, t, pc, v))
  {
  }

  lemma NoticeGoesOn(g: Shared, t: Tid, pc: NoticePc, via: Driver)
    requires FrameInv(g, t, NoticeF(pc)) && Carries(NoticeF(pc), via)
    ensures GoesOn(g, NoticeF(pc), via, NoticeStep(g, t, pc))
  {
  }

  lemma DriverGoesOn(g: Shared, t: Tid, f: Frame, c: Choice, via: Driver)
    requires FrameInv(g, t, f) && Carries(f, via)
    ensures GoesOn(g, f, via, LocalStep(g, t, f, c))
  {
    match f
    case StopF(pc) => StopGoesOn(g, t, pc, via);
    case SigF(pc, v) => SignalGoesOn(g, t, pc, v, via);
    case NoticeF(pc) => NoticeGoesOn(g, t, pc, via);
    case _ =>
  }

  /** Only a winning compare-and-swap starts a driver, and its frame becomes that driver's. */
  ghost predicate StartsOnlyWinners(g: Shared, f: Frame, o: Outcome) {
    forall k :: !o.Blocked? && StopWon(k) in o.g.log && StopWon(k) !in g.log ==>
      o.Next? && Carries(o.frame, Winner(k))
  }

  lemma StopStarts(g: Shared, t: Tid, pc: StopPc)
    ensures StartsOnlyWinners(g, StopF(pc), StopStep(g, t, pc))
  {
  }

  lemma NoticeStarts(g: Shared, t: Tid, pc: NoticePc)
    ensures StartsOnlyWinners(g, NoticeF(pc), NoticeStep(g, t, pc))
  {
  }

  lemma InitRecordsNothing(g: Shared, t: Tid, pc: InitPc, c: Choice)
    ensures var o := InitStep(g, t, pc, c); o.Blocked? || o.g.log == g.log
  {
  }

  lemma QuietRunStarts(g: Shared, t: Tid, pc: RunPc, c: Choice)
    requires !pc.RunOpen? && !pc.RunSubscribe? && !pc.RunPark?
    ensures StartsOnlyWinners(g, RunF(pc), RunStep(g, t, pc, c))
  {
  }

  lemma ParkingRunStarts(g: Shared, t: Tid, pc: RunPc, c: Choice)
    requires pc.RunSubscribe? || pc.RunPark?
    ensures StartsOnlyWinners(g, RunF(pc), RunStep(g, t, pc, c))
  {
  }

  lemma OpeningStarts(g: Shared, t: Tid, consumer: bool, done: bool, c: Choice)
    ensures StartsOnlyWinners(g, RunF(RunOpen(consumer, done)), RunStep(g, t, RunOpen(consumer, done), c))
  {
  }

  lemma RunStarts(g: Shared, t: Tid, pc: RunPc, c: Choice)
    ensures StartsOnlyWinners(g, RunF(pc), RunStep(g, t, pc, c))
  {
    match pc
    case RunOpen(consumer, done) => OpeningStarts(g, t, consumer, done, c);
    case RunSubscribe(_) => ParkingRunStarts(g, t, pc, c);
    case RunPark(_) => ParkingRunStarts(g, t, pc, c);
    case _ => QuietRunStarts(g, t, pc, c);
  }

  lemma SignalStarts(g: Shared, t: Tid, pc: SigPc, via: Driver)
    ensures StartsOnlyWinners(g, SigF(pc, via), SignalStep(g, t, pc, via))
  {
  }

  lemma PeekStarts(g: Shared, t: Tid, pc: PeekPc, op: Peek)
    ensures StartsOnlyWinners(g, PeekF(pc, op), PeekStep(g, t, pc, op))
  {
  }

  lemma OnlyWinnersStart(g: Shared, t: Tid, f: Frame, c: Choice)
    ensures StartsOnlyWinners(g, f, LocalStep(g, t, f, c))
  {
    match f
    case StopF(pc) => StopStarts(g, t, pc);
    case NoticeF(pc) => NoticeStarts(g, t, pc);
    case InitF(pc) => InitRecordsNothing(g, t, pc, c);
    case RunF(pc) => RunStarts(g, t, pc, c);
    case SigF(pc, via) => SignalStarts(g, t, pc, via);
    case PeekF(pc, op) => PeekStarts(g, t, pc, op);
  }

  // -- What a signal proves -----------------------------------------------------

  lemma {:induction false} SignalsHaveAHistory(log: Log, via: Driver)
    requires WellOrdered(log) && SignalledBy(log, via)
    ensures match via
            case Winner(k) => CtxCancelled(Winner(k)) in log
            case Notice => HandlerDone in log
  {
    var prefix, e := log[..|log| - 1], log[|log| - 1];
    assert log == prefix + [e];
    if SignalledBy(prefix, via) { SignalsHaveAHistory(prefix, via); }
  }

  lemma {:induction false} CancellationsHaveAHistory(log: Log, k: nat)
    requires WellOrdered(log) && CtxCancelled(Winner(k)) in log
    ensures ShutdownEnded(k) in log
  {
    var prefix, e := log[..|log| - 1], log[|log| - 1];
    assert log == prefix + [e];
    if CtxCancelled(Winner(k)) in prefix { CancellationsHaveAHistory(prefix, k); }
  }

  /** A ticket that is still to be handed out has signalled nothing. */
  lemma NextTicketIsSilent(log: Log)
    requires WellOrdered(log)
    ensures !SignalledBy(log, Winner(CountWins(log)))
  {
    var k := CountWins(log);
    if SignalledBy(log, Winner(k)) {
      SignalsHaveAHistory(log, Winner(k));
      CancellationsHaveAHistory(log, k);
      TicketsBelowWins(log, k);
    }
  }

  // -- Every schedule -------------------------------------------------------------

  /** A started driver that has not signalled has a frame, and one that has signalled has none. */
  ghost predicate Driven(s: State, via: Driver) {
    && (Started(s.g, via) ==> SignalledBy(s.g.log, via) || Carried(s, via))
    && (Carried(s, via) ==> !SignalledBy(s.g.log, via))
  }

  /** The stepping frame is the driver's. */
  lemma DriverSteps(s: State, t: Tid, c: Choice, s2: State, via: Driver)
    requires Steps(s, t, c, s2) && Driven(s, via) && Carries(Top(Stack(s, t)), via)
    ensures Driven(s2, via)
  {
    var fs := Stack(s, t);
    var n := |fs| - 1;
    assert Carried(s, via) by { assert Carries(fs[n], via); }
    AdvanceShape(s, t, c, s2);
    DriverGoesOn(s.g, t, fs[n], c, via);
    if LocalStep(s.g, t, fs[n], c).Next? {
      assert Carries(Stack(s2, t)[n], via);
    } else {
      assert s2.g.log[|s.g.log|] == Signalled(via, !s.g.closed);
      forall u, j | 0 <= j < |Stack(s2, u)| ensures !Carries(Stack(s2, u)[j], via) {
        FrameAfter(s, t, c, s2, u, j);
        BelowOrBeside(s, t, u, j);
      }
    }
  }

  lemma OtherFramesStay(s: State, t: Tid, c: Choice, s2: State, u: Tid, j: int)
    requires Steps(s, t, c, s2) && 0 <= j < |Stack(s, u)| && !(u == t && j == |Stack(s, t)| - 1)
    ensures j < |Stack(s2, u)| && Stack(s2, u)[j] == Stack(s, u)[j]
  {
    AdvanceShape(s, t, c, s2);
  }

  lemma CarriedBeside(s: State, t: Tid, c: Choice, s2: State, via: Driver)
    requires Steps(s, t, c, s2) && Carried(s, via) && !Carries(Top(Stack(s, t)), via)
    ensures Carried(s2, via)
  {
    var u, j :| 0 <= j < |Stack(s, u)| && Carries(Stack(s, u)[j], via);
    OtherFramesStay(s, t, c, s2, u, j);
    assert Carries(Stack(s2, u)[j], via);
  }

  /** A frame after the step that carries the driver is old, or a fresh winner's. */
  lemma CarriedAfter(s: State, t: Tid, c: Choice, s2: State, via: Driver)
    requires Steps(s, t, c, s2) && Carried(s2, via) && !Carries(Top(Stack(s, t)), via)
    ensures Carried(s, via) || via == Winner(CountWins(s.g.log))
  {
    AdvanceShape(s, t, c, s2);
    var u, j :| 0 <= j < |Stack(s2, u)| && Carries(Stack(s2, u)[j], via);
    FrameAfter(s, t, c, s2, u, j);
    if !(u == t && j == |Stack(s, t)| - 1) {
      assert Carries(Stack(s, u)[j], via);
    }
  }

  lemma SignalsAreTheDrivers(g: Shared, t: Tid, f: Frame, g2: Shared, via: Driver)
    requires Effect(g, t, f, g2) && !Carries(f, via)
    ensures SignalledBy(g2.log, via) <==> SignalledBy(g.log, via)
  {
  }

  lemma StartedIsCarried(s: State, t: Tid, c: Choice, s2: State, via: Driver)
    requires Steps(s, t, c, s2) && Started(s2.g, via) && !Started(s.g, via)
    ensures Carried(s2, via)
  {
    AdvanceShape(s, t, c, s2);
    OnlyWinnersStart(s.g, t, Top(Stack(s, t)), c);
    assert Carries(Stack(s2, t)[|Stack(s, t)| - 1], via);
  }

  /** The stepping frame is not the driver's. */
  lemma OthersStep(s: State, t: Tid, c: Choice, s2: State, via: Driver)
    requires Steps(s, t, c, s2) && Driven(s, via) && !Carries(Top(Stack(s, t)), via)
    ensures Driven(s2, via)
  {
    AdvanceShape(s, t, c, s2);
    SignalsAreTheDrivers(s.g, t, Top(Stack(s, t)), s2.g, via);
    NextTicketIsSilent(s.g.log);
    if Carried(s, via) {
      CarriedBeside(s, t, c, s2, via);
    } else if Carried(s2, via) {
      CarriedAfter(s, t, c, s2, via);
    } else if Started(s2.g, via) && !Started(s.g, via) {
      StartedIsCarried(s, t, c, s2, via);
    }
  }

  /** A call in, or a notification, adds one frame and keeps the others. */
  lemma PushCarries(s: State, t: Tid, a: Action, s2: State, via: Driver)
    requires Inv(s) && !a.Advance? && Apply(s, t, a) == Some(s2)
    ensures Carried(s2, via) <==> Carried(s, via) || (a.Notify? && via == Notice)
  {
    PushShape(s, t, a, s2);
    var n := |Stack(s, t)|;
    assert Carries(Stack(s2, t)[n], via) <==> a.Notify? && via == Notice;
    if Carried(s, via) {
      var u, j :| 0 <= j < |Stack(s, u)| && Carries(Stack(s, u)[j], via);
      assert Carries(Stack(s2, u)[j], via);
    }
    if Carried(s2, via) {
      var u, j :| 0 <= j < |Stack(s2, u)| && Carries(Stack(s2, u)[j], via);
      assert (u == t && j == n) || Stack(s2, u)[j] == Stack(s, u)[j];
    }
  }

  lemma PushDrives(s: State, t: Tid, a: Action, s2: State, via: Driver)
    requires Inv(s) && !a.Advance? && Apply(s, t, a) == Some(s2) && Driven(s, via)
    ensures Driven(s2, via)
  {
    PushShape(s, t, a, s2);
    PushCarries(s, t, a, s2, via);
    if SignalledBy(s.g.log, Notice) { SignalsHaveAHistory(s.g.log, Notice); }
  }

  lemma {:induction false} EveryScheduleDrives(sched: Schedule, via: Driver)
    requires Execute(sched).Some?
    ensures Driven(Execute(sched).value, via)
  {
    if sched == [] {
      assert forall t :: Stack(START, t) == [];
    } else {
      var prefix, last := sched[..|sched| - 1], sched[|sched| - 1];
      EveryScheduleKeepsInv(prefix);
      EveryScheduleDrives(prefix, via);
      var s, s2 := Execute(prefix).value, Execute(sched).value;
      match last.1
      case Advance(c) =>
        if Carries(Top(Stack(s, last.0)), via) {
          DriverSteps(s, last.0, c, s2, via);
        } else {
          OthersStep(s, last.0, c, s2, via);
        }
      case _ => PushDrives(s, last.0, last.1, s2, via);
    }
  }

  lemma BearersHaveStarted(s: State, via: Driver)
    requires Inv(s) && Carried(s, via)
    ensures Started(s.g, via)
  {
    var t, i :| 0 <= i < |Stack(s, t)| && Carries(Stack(s, t)[i], via);
    assert FrameInv(s.g, t, Stack(s, t)[i]);
  }

  /** No driver gets lost: in every state of every schedule one of a driver's frames is on
      some stack exactly when that stop has won, or the engine has notified, and the driver
      has not signalled yet. */
  lemma NoDriverGetsLost(sched: Schedule, via: Driver)
    requires Execute(sched).Some?
    ensures var s := Execute(sched).value;
            Carried(s, via) <==> Started(s.g, via) && !SignalledBy(s.g.log, via)
  {
    EveryScheduleKeepsInv(sched);
    EveryScheduleDrives(sched, via);
    if Carried(Execute(sched).value, via) { BearersHaveStarted(Execute(sched).value, via); }
  }

  /** Once a gate winner or the notification has completed, so that none of its frames is left
      on any stack, the channel is closed and every parked run can return 0. */
  lemma NoRunStaysParked(sched: Schedule, via: Driver, t: Tid, c: Choice)
    requires Execute(sched).Some?
    requires Started(Execute(sched).value.g, via) && !Carried(Execute(sched).value, via)
    requires var fs := Stack(Execute(sched).value, t); fs != [] && Top(fs).RunF? && Top(fs).run.RunPark?
    ensures Execute(sched).value.g.closed
    ensures Apply(Execute(sched).value, t, Advance(c)).Some?
    ensures var s, s2 := Execute(sched).value, Apply(Execute(sched).value, t, Advance(c)).value;
            s2.g.log == s.g.log + [RunReturned(0)] && |Stack(s2, t)| == |Stack(s, t)| - 1
  {
    EveryScheduleKeepsInv(sched);
    NoDriverGetsLost(sched, via);
    var s := Execute(sched).value;
    assert HasSignal(s.g.log);
    TopCanStep(s, t);
  }
}
