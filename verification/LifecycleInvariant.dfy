/** The lifecycle invariant holds in every state any schedule reaches. */
module LifecycleInvariant {
  import opened Common
  import opened Lifecycle

  // -- The history ----------------------------------------------------------

  lemma LogExtends(log: Log, e: Event)
    requires WellOrdered(log) && Allowed(log, e)
    ensures WellOrdered(log + [e])
    ensures CountWins(log + [e]) == CountWins(log) + if e.StopWon? then 1 else 0
    ensures CountOpenings(log + [e]) == CountOpenings(log) + if e.GateOpened? then 1 else 0
    ensures GateOf(log + [e]) ==
            (e.GateOpened? || (!e.StopWon? && !e.NoticeBegun? && GateOf(log)))
    ensures HasSignal(log + [e]) == (HasSignal(log) || e.Signalled?)
    ensures HasCancel(log + [e]) == (HasCancel(log) || e.CtxCancelled?)
  {
    var ext := log + [e];
    assert ext[..|ext| - 1] == log && ext[|ext| - 1] == e;
    assert forall i :: 0 <= i < |log| ==> ext[i] == log[i];
  }

  /** Tickets are handed out in order, so a recorded one is below the number of wins. */
  lemma {:induction false} TicketsBelowWins(log: Log, k: nat)
    requires WellOrdered(log)
    ensures StopWon(k) in log || ShutdownStarted(k) in log || ShutdownEnded(k) in log ==> k < CountWins(log)
  {
    if log != [] {
      var prefix, e := log[..|log| - 1], log[|log| - 1];
      assert log == prefix + [e];
      TicketsBelowWins(prefix, k);
    }
  }

  // -- One step of one frame --------------------------------------------------

  predicate PublicationKept(g: Shared, g2: Shared) {
    && g2.consumer == g.consumer && g2.cancel == g.cancel && g2.cleanup == g.cleanup
    && g2.runDone == g.runDone && g2.ready == g.ready && g2.dead == g.dead && g2.nextCtx == g.nextCtx
    && (forall c :: c in g2.cancelled ==> c in g.cancelled || c in g.dead || g.cancel == Some(c))
  }

  predicate LogGrows(g: Shared, f: Frame, g2: Shared) {
    || g2.log == g.log
    || (&& |g2.log| == |g.log| + 1
        && g2.log == g.log + [g2.log[|g.log|]]
        && (OwnerOf(g2.log[|g.log|]).Some? ==> OwnerOf(g2.log[|g.log|]) == TokenOf(f)))
  }

  /** What a step of f by thread t may do to the globals. */
  predicate Effect(g: Shared, t: Tid, f: Frame, g2: Shared) {
    && LogGrows(g, f, g2)
    && g2.noticed == g.noticed && g.dead <= g2.dead && (g.sealed ==> g2.sealed)
    && (PublishedAll(g) ==> PublishedAll(g2) && g2.cancel == g.cancel)
    && (TokenOf(f) != Some(InitToken) ==> PublicationKept(g, g2))
    && (g2.mu == g.mu || (InMu(f) && g2.mu == None) || (g.mu == None && g2.mu == Some(t)))
    && (|| g2.initMu == g.initMu
        || (TokenOf(f) == Some(InitToken) && g2.initMu == None)
        || (f == InitF(InitEnter) && g.initMu == None && g2.initMu == Some(t)))
  }

  predicate IsPanicUnlock(f: Frame) {
    f.InitF? && f.init.InitPanicUnlock?
  }

  /** The token a stepped frame carries: the one it had, none, or a fresh one. */
  predicate TokenKept(g: Shared, f: Frame, f2: Frame) {
    || TokenOf(f2) == TokenOf(f)
    || (TokenOf(f2).None? && !(TokenOf(f) == Some(InitToken) && !IsPanicUnlock(f)))
    || (f == InitF(InitEnter) && g.initMu == None && TokenOf(f2) == Some(InitToken))
    || ((f.StopF? && f.stop.StopCas?) && TokenOf(f2) == Some(TicketToken(CountWins(g.log))))
  }

  predicate Visible(g: Shared, f: Frame) {
    PublishedAll(g) || PublishedNone(g) || IsPartial(f)
  }

  predicate StepsInto(g: Shared, t: Tid, f: Frame, g2: Shared, f2: Frame) {
    && FrameInv(g2, t, f2)
    && TokenKept(g, f, f2)
    && (TokenOf(f) == Some(InitToken) ==> g2.initMu == None || TokenOf(f2) == Some(InitToken))
    && (Visible(g, f) ==> Visible(g2, f2))
    && (InMu(f) || g.mu != Some(t) ==> g2.mu == Some(t) ==> InMu(f2))
  }

  predicate StepsOut(g: Shared, t: Tid, f: Frame, g2: Shared) {
    && (TokenOf(f) == Some(InitToken) ==> g2.initMu == None)
    && (Visible(g, f) ==> PublishedAll(g2) || PublishedNone(g2))
    && (InMu(f) || g.mu != Some(t) ==> g2.mu != Some(t))
  }

  ghost predicate GlobalsSound(g: Shared, t: Tid, f: Frame, o: Outcome) {
    o.Blocked? || (SharedInv(o.g) && Effect(g, t, f, o.g))
  }

  ghost predicate FrameSound(g: Shared, t: Tid, f: Frame, o: Outcome) {
    match o
    case Blocked => true
    case Next(g2, f2) => StepsInto(g, t, f, g2, f2)
    case Return(g2) => StepsOut(g, t, f, g2)
  }

  ghost predicate CanStep(g: Shared, t: Tid, f: Frame) {
    SharedInv(g) && FrameInv(g, t, f) && (InMu(f) ==> Visible(g, f))
  }

  /** What the stepping frame's own half needs of it. */
  ghost predicate CanStepLocally(g: Shared, t: Tid, f: Frame) {
    && FrameInv(g, t, f) && (InMu(f) ==> Visible(g, f))
    && (forall c :: c in g.dead ==> c < g.nextCtx)
    && (forall c :: c in g.cancelled ==> c < g.nextCtx)
  }

  predicate RecordsOnly(g: Shared, g2: Shared, e: Event) {
    && g2 == g.(log := g.log + [e], gate := g2.gate, closed := g2.closed, cancelled := g2.cancelled)
    && g2.gate == (e.GateOpened? || (!e.StopWon? && !e.NoticeBegun? && g.gate))
    && g2.closed == (g.closed || e.Signalled?)
    && (if e.CtxCancelled? then PublishedAll(g) && g2.cancelled == g.cancelled + {g.cancel.value}
        else g2.cancelled == g.cancelled)
    && (e.GateOpened? ==> PublishedAll(g))
    && (OwnerOf(e) == Some(NoticeToken) ==> g.noticed)
  }

  /** The globals' half of every step that records an event. */
  lemma Records(g: Shared, t: Tid, f: Frame, g2: Shared, e: Event)
    requires SharedInv(g) && Allowed(g.log, e) && RecordsOnly(g, g2, e)
    requires OwnerOf(e).Some? ==> OwnerOf(e) == TokenOf(f)
    requires TokenOf(f) != Some(InitToken)
    ensures SharedInv(g2) && Effect(g, t, f, g2)
  {
    LogExtends(g.log, e);
    assert g2.log[|g.log|] == e;
  }

  /** Init before the build, and from the publishing section on; the rest builds. */
  predicate BeforeBuild(pc: InitPc) {
    || pc.InitEnter? || pc.InitCheckLock? || pc.InitCheckRead? || pc.InitCheckUnlock? || pc.InitParse?
    || pc.InitLog?
  }

  predicate AfterBuild(pc: InitPc) {
    || pc.InitPubCancel? || pc.InitPubConsumer? || pc.InitPubCleanup? || pc.InitPubDone? || pc.InitPubUnlock?
    || pc.InitSeal? || pc.InitLeave?
  }

  lemma EarlyInitGlobals(g: Shared, t: Tid, pc: InitPc, c: Choice)
    requires CanStep(g, t, InitF(pc)) && BeforeBuild(pc)
    ensures GlobalsSound(g, t, InitF(pc), InitStep(g, t, pc, c))
  {
  }

  lemma BuildGlobals(g: Shared, t: Tid, pc: InitPc, c: Choice)
    requires CanStep(g, t, InitF(pc)) && !BeforeBuild(pc) && !AfterBuild(pc)
    ensures GlobalsSound(g, t, InitF(pc), InitStep(g, t, pc, c))
  {
  }

  lemma LateInitGlobals(g: Shared, t: Tid, pc: InitPc, c: Choice)
    requires CanStep(g, t, InitF(pc)) && AfterBuild(pc)
    ensures GlobalsSound(g, t, InitF(pc), InitStep(g, t, pc, c))
  {
  }

  lemma InitGlobals(g: Shared, t: Tid, pc: InitPc, c: Choice)
    requires CanStep(g, t, InitF(pc))
    ensures GlobalsSound(g, t, InitF(pc), InitStep(g, t, pc, c))
  {
    if BeforeBuild(pc) {
      EarlyInitGlobals(g, t, pc, c);
    } else if AfterBuild(pc) {
      LateInitGlobals(g, t, pc, c);
    } else {
      BuildGlobals(g, t, pc, c);
    }
  }

  lemma EnterFrame(g: Shared, t: Tid, c: Choice)
    requires CanStepLocally(g, t, InitF(InitEnter))
    ensures FrameSound(g, t, InitF(InitEnter), InitStep(g, t, InitEnter, c))
  {
    var g2 := g.(initMu := Some(t));
    assert FrameInv(g2, t, InitF(InitCheckLock));
    assert Visible(g, InitF(InitEnter)) ==> Visible(g2, InitF(InitCheckLock));
  }

  lemma CheckLockFrame(g: Shared, t: Tid, c: Choice)
    requires CanStepLocally(g, t, InitF(InitCheckLock))
    ensures FrameSound(g, t, InitF(InitCheckLock), InitStep(g, t, InitCheckLock, c))
  {
    var g2 := g.(mu := Some(t));
    assert FrameInv(g2, t, InitF(InitCheckRead));
    assert Visible(g, InitF(InitCheckLock)) ==> Visible(g2, InitF(InitCheckRead));
  }

  lemma CheckReadFrame(g: Shared, t: Tid, c: Choice)
    requires CanStepLocally(g, t, InitF(InitCheckRead))
    ensures FrameSound(g, t, InitF(InitCheckRead), InitStep(g, t, InitCheckRead, c))
  {
  }

  lemma CheckUnlockFrame(g: Shared, t: Tid, already: bool, c: Choice)
    requires CanStepLocally(g, t, InitF(InitCheckUnlock(already)))
    ensures FrameSound(g, t, InitF(InitCheckUnlock(already)), InitStep(g, t, InitCheckUnlock(already), c))
  {
  }

  lemma ParseFrame(g: Shared, t: Tid, already: bool, c: Choice)
    requires CanStepLocally(g, t, InitF(InitParse(already)))
    ensures FrameSound(g, t, InitF(InitParse(already)), InitStep(g, t, InitParse(already), c))
  {
  }

  lemma LogFrame(g: Shared, t: Tid, c: Choice)
    requires CanStepLocally(g, t, InitF(InitLog))
    ensures FrameSound(g, t, InitF(InitLog), InitStep(g, t, InitLog, c))
  {
  }

  lemma EarlyInitFrame(g: Shared, t: Tid, pc: InitPc, c: Choice)
    requires CanStepLocally(g, t, InitF(pc)) && BeforeBuild(pc)
    ensures FrameSound(g, t, InitF(pc), InitStep(g, t, pc, c))
  {
    match pc
    case InitEnter => EnterFrame(g, t, c);
    case InitCheckLock => CheckLockFrame(g, t, c);
    case InitCheckRead => CheckReadFrame(g, t, c);
    case InitCheckUnlock(already) => CheckUnlockFrame(g, t, already, c);
    case InitParse(already) => ParseFrame(g, t, already, c);
    case InitLog => LogFrame(g, t, c);
  }

  lemma BuildFrame(g: Shared, t: Tid, pc: InitPc, c: Choice)
    requires CanStepLocally(g, t, InitF(pc)) && !BeforeBuild(pc) && !AfterBuild(pc)
    ensures FrameSound(g, t, InitF(pc), InitStep(g, t, pc, c))
  {
  }

  lemma LateInitFrame(g: Shared, t: Tid, pc: InitPc, c: Choice)
    requires CanStepLocally(g, t, InitF(pc)) && AfterBuild(pc)
    ensures FrameSound(g, t, InitF(pc), InitStep(g, t, pc, c))
  {
  }

  lemma InitFrame(g: Shared, t: Tid, pc: InitPc, c: Choice)
    requires CanStep(g, t, InitF(pc))
    ensures FrameSound(g, t, InitF(pc), InitStep(g, t, pc, c))
  {
    if BeforeBuild(pc) {
      EarlyInitFrame(g, t, pc, c);
    } else if AfterBuild(pc) {
      LateInitFrame(g, t, pc, c);
    } else {
      BuildFrame(g, t, pc, c);
    }
  }

  /** The steps of a run that record nothing. */
  lemma QuietRunGlobals(g: Shared, t: Tid, pc: RunPc, c: Choice)
    requires CanStep(g, t, RunF(pc)) && !pc.RunOpen? && !pc.RunSubscribe? && !pc.RunPark?
    ensures GlobalsSound(g, t, RunF(pc), RunStep(g, t, pc, c))
  {
  }

  lemma RunReturnGlobals(g: Shared, t: Tid, pc: RunPc, c: Choice)
    requires CanStep(g, t, RunF(pc)) && (pc.RunSubscribe? || pc.RunPark?)
    ensures GlobalsSound(g, t, RunF(pc), RunStep(g, t, pc, c))
  {
    if pc.RunSubscribe? && !c.Succeeds? {
      Records(g, t, RunF(pc), RunStep(g, t, pc, c).g, RunReturned(if c.Fails? then -2 else -3));
    }
    if pc.RunPark? && g.closed {
      Records(g, t, RunF(pc), RunStep(g, t, pc, c).g, RunReturned(0));
    }
  }

  lemma RunGlobals(g: Shared, t: Tid, pc: RunPc, c: Choice)
    requires CanStep(g, t, RunF(pc))
    ensures GlobalsSound(g, t, RunF(pc), RunStep(g, t, pc, c))
  {
    match pc
    case RunOpen(consumer, _) =>
      Records(g, t, RunF(pc), RunStep(g, t, pc, c).g, if consumer then GateOpened else RunReturned(-1));
    case RunSubscribe(_) => RunReturnGlobals(g, t, pc, c);
    case RunPark(_) => RunReturnGlobals(g, t, pc, c);
    case _ => QuietRunGlobals(g, t, pc, c);
  }

  lemma SnapshotRunFrame(g: Shared, t: Tid, pc: RunPc, c: Choice)
    requires CanStepLocally(g, t, RunF(pc)) && !pc.RunOpen? && !pc.RunSubscribe? && !pc.RunPark?
    ensures FrameSound(g, t, RunF(pc), RunStep(g, t, pc, c))
  {
  }

  lemma ParkingRunFrame(g: Shared, t: Tid, pc: RunPc, c: Choice)
    requires CanStepLocally(g, t, RunF(pc)) && (pc.RunOpen? || pc.RunSubscribe? || pc.RunPark?)
    ensures FrameSound(g, t, RunF(pc), RunStep(g, t, pc, c))
  {
  }

  lemma RunFrame(g: Shared, t: Tid, pc: RunPc, c: Choice)
    requires CanStepLocally(g, t, RunF(pc))
    ensures FrameSound(g, t, RunF(pc), RunStep(g, t, pc, c))
  {
    if pc.RunOpen? || pc.RunSubscribe? || pc.RunPark? {
      ParkingRunFrame(g, t, pc, c);
    } else {
      SnapshotRunFrame(g, t, pc, c);
    }
  }

  lemma StopGlobals(g: Shared, t: Tid, pc: StopPc)
    requires CanStep(g, t, StopF(pc))
    ensures GlobalsSound(g, t, StopF(pc), StopStep(g, t, pc))
  {
    match pc
    case StopCas(_, _) =>
      if pc.consumer && g.gate {
        Records(g, t, StopF(pc), StopStep(g, t, pc).g, StopWon(CountWins(g.log)));
      }
    case StopCall(_, k) => Records(g, t, StopF(pc), StopStep(g, t, pc).g, ShutdownStarted(k));
    case StopShutdown(_, k) => Records(g, t, StopF(pc), StopStep(g, t, pc).g, ShutdownEnded(k));
    case StopCancel(_, k) => Records(g, t, StopF(pc), StopStep(g, t, pc).g, CtxCancelled(Winner(k)));
    case _ =>
  }

  lemma CasFrame(g: Shared, t: Tid, pc: StopPc)
    requires CanStepLocally(g, t, StopF(pc)) && pc.StopCas?
    requires ShutdownStarted(CountWins(g.log)) !in g.log && ShutdownEnded(CountWins(g.log)) !in g.log
    ensures FrameSound(g, t, StopF(pc), StopStep(g, t, pc))
  {
  }

  lemma StopLockFrame(g: Shared, t: Tid)
    requires CanStepLocally(g, t, StopF(StopLock))
    ensures FrameSound(g, t, StopF(StopLock), StopStep(g, t, StopLock))
  {
  }

  lemma OtherStopFrame(g: Shared, t: Tid, pc: StopPc)
    requires CanStepLocally(g, t, StopF(pc)) && !pc.StopCas? && !pc.StopLock?
    ensures FrameSound(g, t, StopF(pc), StopStep(g, t, pc))
  {
  }

  lemma StopFrame(g: Shared, t: Tid, pc: StopPc)
    requires CanStep(g, t, StopF(pc))
    ensures FrameSound(g, t, StopF(pc), StopStep(g, t, pc))
  {
    if pc.StopCas? {
      TicketsBelowWins(g.log, CountWins(g.log));
      CasFrame(g, t, pc);
    } else if pc.StopLock? {
      StopLockFrame(g, t);
    } else {
      OtherStopFrame(g, t, pc);
    }
  }

  lemma SignalGlobals(g: Shared, t: Tid, pc: SigPc, via: Driver)
    requires CanStep(g, t, SigF(pc, via))
    ensures GlobalsSound(g, t, SigF(pc, via), SignalStep(g, t, pc, via))
  {
    if pc.SigOnce? {
      Records(g, t, SigF(pc, via), SignalStep(g, t, pc, via).g, Signalled(via, !g.closed));
    }
  }

  lemma SignalFrame(g: Shared, t: Tid, pc: SigPc, via: Driver)
    requires CanStepLocally(g, t, SigF(pc, via))
    ensures FrameSound(g, t, SigF(pc, via), SignalStep(g, t, pc, via))
  {
  }

  lemma PeekGlobals(g: Shared, t: Tid, pc: PeekPc, op: Peek)
    requires CanStep(g, t, PeekF(pc, op))
    ensures GlobalsSound(g, t, PeekF(pc, op), PeekStep(g, t, pc, op))
  {
  }

  lemma PeekLockFrame(g: Shared, t: Tid, op: Peek)
    requires CanStepLocally(g, t, PeekF(PeekLock, op))
    ensures FrameSound(g, t, PeekF(PeekLock, op), PeekStep(g, t, PeekLock, op))
  {
  }

  lemma PeekReadFrame(g: Shared, t: Tid, op: Peek)
    requires CanStepLocally(g, t, PeekF(PeekRead, op))
    ensures FrameSound(g, t, PeekF(PeekRead, op), PeekStep(g, t, PeekRead, op))
  {
  }

  lemma PeekFrame(g: Shared, t: Tid, pc: PeekPc, op: Peek)
    requires CanStepLocally(g, t, PeekF(pc, op))
    ensures FrameSound(g, t, PeekF(pc, op), PeekStep(g, t, pc, op))
  {
    match pc
    case PeekLock => PeekLockFrame(g, t, op);
    case PeekRead => PeekReadFrame(g, t, op);
    case _ =>
  }

  lemma NoticeGlobals(g: Shared, t: Tid, pc: NoticePc)
    requires CanStep(g, t, NoticeF(pc))
    ensures GlobalsSound(g, t, NoticeF(pc), NoticeStep(g, t, pc))
  {
    match pc
    case NoticeStore(reason) => Records(g, t, NoticeF(pc), NoticeStep(g, t, pc).g, NoticeBegun(reason));
    case NoticeHandler(reason) =>
      assert reason == Graceful || reason == Emergency;
      Records(g, t, NoticeF(pc), NoticeStep(g, t, pc).g, HandlerDone);
    case CleanCall(_, _) => Records(g, t, NoticeF(pc), NoticeStep(g, t, pc).g, CleanupStarted);
    case CleanRun(_) => Records(g, t, NoticeF(pc), NoticeStep(g, t, pc).g, CleanupDone);
    case CleanCancel(_) => Records(g, t, NoticeF(pc), NoticeStep(g, t, pc).g, CtxCancelled(Notice));
    case _ =>
  }

  /** The notification up to the lock of the cleanup, and behind it. */
  predicate BeforeCleanup(pc: NoticePc) {
    pc.NoticeStore? || pc.NoticeHandler? || pc.CleanLock?
  }

  lemma EarlyNoticeFrame(g: Shared, t: Tid, pc: NoticePc)
    requires CanStepLocally(g, t, NoticeF(pc)) && BeforeCleanup(pc)
    ensures FrameSound(g, t, NoticeF(pc), NoticeStep(g, t, pc))
  {
  }

  lemma LateNoticeFrame(g: Shared, t: Tid, pc: NoticePc)
    requires CanStepLocally(g, t, NoticeF(pc)) && !BeforeCleanup(pc)
    ensures FrameSound(g, t, NoticeF(pc), NoticeStep(g, t, pc))
  {
  }

  lemma NoticeFrame(g: Shared, t: Tid, pc: NoticePc)
    requires CanStepLocally(g, t, NoticeF(pc))
    ensures FrameSound(g, t, NoticeF(pc), NoticeStep(g, t, pc))
  {
    if BeforeCleanup(pc) {
      EarlyNoticeFrame(g, t, pc);
    } else {
      LateNoticeFrame(g, t, pc);
    }
  }

  lemma LocalStepIsSound(g: Shared, t: Tid, f: Frame, c: Choice)
    requires CanStep(g, t, f)
    ensures GlobalsSound(g, t, f, LocalStep(g, t, f, c))
    ensures FrameSound(g, t, f, LocalStep(g, t, f, c))
  {
    match f
    case InitF(pc) => InitGlobals(g, t, pc, c); InitFrame(g, t, pc, c);
    case RunF(pc) => RunGlobals(g, t, pc, c); RunFrame(g, t, pc, c);
    case StopF(pc) => StopGlobals(g, t, pc); StopFrame(g, t, pc);
    case SigF(pc, via) => SignalGlobals(g, t, pc, via); SignalFrame(g, t, pc, via);
    case PeekF(pc, op) => PeekGlobals(g, t, pc, op); PeekFrame(g, t, pc, op);
    case NoticeF(pc) => NoticeGlobals(g, t, pc); NoticeFrame(g, t, pc);
  }

  // -- Every other frame --------------------------------------------------------

  /** f steps, and h is a frame with another token and not inside state.mu beside it. */
  ghost predicate Beside(g: Shared, t: Tid, f: Frame, g2: Shared, u: Tid, h: Frame) {
    && SharedInv(g) && FrameInv(g, t, f) && FrameInv(g, u, h) && Effect(g, t, f, g2)
    && (TokenOf(h).None? || TokenOf(h) != TokenOf(f))
    && !(InMu(h) && InMu(f))
  }

  lemma InitsKept(g: Shared, t: Tid, f: Frame, g2: Shared, u: Tid, h: Frame)
    requires Beside(g, t, f, g2, u, h) && h.InitF?
    ensures FrameInv(g2, u, h)
  {
  }

  lemma CallersKept(g: Shared, t: Tid, f: Frame, g2: Shared, u: Tid, h: Frame)
    requires Beside(g, t, f, g2, u, h) && (h.RunF? || h.PeekF?)
    ensures FrameInv(g2, u, h)
  {
  }

  lemma StopsKept(g: Shared, t: Tid, f: Frame, g2: Shared, u: Tid, h: Frame)
    requires Beside(g, t, f, g2, u, h) && h.StopF?
    ensures FrameInv(g2, u, h)
  {
    assert forall e :: e in g.log ==> e in g2.log;
    assert forall e :: e in g2.log ==> e in g.log || OwnerOf(e).None? || OwnerOf(e) == TokenOf(f);
  }

  lemma SignalsKept(g: Shared, t: Tid, f: Frame, g2: Shared, u: Tid, h: Frame)
    requires Beside(g, t, f, g2, u, h) && h.SigF?
    ensures FrameInv(g2, u, h)
  {
    assert forall e :: e in g.log ==> e in g2.log;
    assert forall e :: e in g2.log ==> e in g.log || OwnerOf(e).None? || OwnerOf(e) == TokenOf(f);
  }

  lemma EarlyNoticesKept(g: Shared, t: Tid, f: Frame, g2: Shared, u: Tid, h: Frame)
    requires Beside(g, t, f, g2, u, h) && h.NoticeF? && BeforeCleanup(h.notice)
    ensures FrameInv(g2, u, h)
  {
    assert forall e :: e in g.log ==> e in g2.log;
    assert forall e :: e in g2.log ==> e in g.log || OwnerOf(e).None? || OwnerOf(e) == TokenOf(f);
  }

  lemma LateNoticesKept(g: Shared, t: Tid, f: Frame, g2: Shared, u: Tid, h: Frame)
    requires Beside(g, t, f, g2, u, h) && h.NoticeF? && !BeforeCleanup(h.notice)
    ensures FrameInv(g2, u, h)
  {
    assert forall e :: e in g.log ==> e in g2.log;
    assert forall e :: e in g2.log ==> e in g.log || OwnerOf(e).None? || OwnerOf(e) == TokenOf(f);
  }

  /** Such a frame keeps its invariant while f steps. */
  lemma OthersKept(g: Shared, t: Tid, f: Frame, g2: Shared, u: Tid, h: Frame)
    requires Beside(g, t, f, g2, u, h)
    ensures FrameInv(g2, u, h)
  {
    match h
    case StopF(_) => StopsKept(g, t, f, g2, u, h);
    case SigF(_, _) => SignalsKept(g, t, f, g2, u, h);
    case InitF(_) => InitsKept(g, t, f, g2, u, h);
    case NoticeF(pc) =>
      if BeforeCleanup(pc) {
        EarlyNoticesKept(g, t, f, g2, u, h);
      } else {
        LateNoticesKept(g, t, f, g2, u, h);
      }
    case _ => CallersKept(g, t, f, g2, u, h);
  }

  // -- A step of the whole system -----------------------------------------------

  lemma TopCanStep(s: State, t: Tid)
    requires Inv(s) && Stack(s, t) != []
    ensures CanStep(s.g, t, Top(Stack(s, t)))
  {
    var i := |Stack(s, t)| - 1;
    assert FrameInv(s.g, t, Stack(s, t)[i]);
  }

  /** A frame other than t's top is outside state.mu when t's top is inside it. */
  lemma BelowOrBeside(s: State, t: Tid, u: Tid, j: int)
    requires Inv(s) && Stack(s, t) != [] && 0 <= j < |Stack(s, u)|
    requires !(u == t && j == |Stack(s, t)| - 1)
    ensures !(InMu(Stack(s, u)[j]) && InMu(Top(Stack(s, t))))
    ensures TokenOf(Stack(s, u)[j]).None? || TokenOf(Stack(s, u)[j]) != TokenOf(Top(Stack(s, t)))
  {
    var n := |Stack(s, t)| - 1;
    assert FrameInv(s.g, t, Stack(s, t)[n]) && FrameInv(s.g, u, Stack(s, u)[j]);
    if u == t { assert IsCallout(Stack(s, u)[j]); }
  }

  ghost predicate Steps(s: State, t: Tid, c: Choice, s2: State) {
    Inv(s) && Stack(s, t) != [] && Apply(s, t, Advance(c)) == Some(s2)
  }

  lemma AdvanceShape(s: State, t: Tid, c: Choice, s2: State)
    requires Steps(s, t, c, s2)
    ensures CanStep(s.g, t, Top(Stack(s, t)))
    ensures var o := LocalStep(s.g, t, Top(Stack(s, t)), c);
            && !o.Blocked? && s2.g == o.g
            && SharedInv(s2.g) && Effect(s.g, t, Top(Stack(s, t)), s2.g)
            && FrameSound(s.g, t, Top(Stack(s, t)), o)
    ensures forall u :: u != t ==> Stack(s2, u) == Stack(s, u)
    ensures var fs, o := Stack(s, t), LocalStep(s.g, t, Top(Stack(s, t)), c);
            Stack(s2, t) == fs[..|fs| - 1] + if o.Next? then [o.frame] else []
  {
    TopCanStep(s, t);
    LocalStepIsSound(s.g, t, Top(Stack(s, t)), c);
  }

  lemma OtherFrameAdvances(s: State, t: Tid, c: Choice, s2: State, u: Tid, j: int)
    requires Steps(s, t, c, s2) && 0 <= j < |Stack(s, u)| && !(u == t && j == |Stack(s, t)| - 1)
    ensures FrameInv(s2.g, u, Stack(s, u)[j])
  {
    AdvanceShape(s, t, c, s2);
    BelowOrBeside(s, t, u, j);
    OthersKept(s.g, t, Top(Stack(s, t)), s2.g, u, Stack(s, u)[j]);
  }

  /** A frame after the step is the stepped one or an old one. */
  lemma FrameAfter(s: State, t: Tid, c: Choice, s2: State, u: Tid, j: int)
    requires Steps(s, t, c, s2) && 0 <= j < |Stack(s2, u)|
    ensures if u == t && j == |Stack(s, t)| - 1
            then LocalStep(s.g, t, Top(Stack(s, t)), c).Next?
                 && Stack(s2, u)[j] == LocalStep(s.g, t, Top(Stack(s, t)), c).frame
            else j < |Stack(s, u)| && Stack(s2, u)[j] == Stack(s, u)[j]
  {
    AdvanceShape(s, t, c, s2);
  }

  lemma SteppedFrameAdvances(s: State, t: Tid, c: Choice, s2: State)
    requires Steps(s, t, c, s2) && LocalStep(s.g, t, Top(Stack(s, t)), c).Next?
    ensures FrameInv(s2.g, t, LocalStep(s.g, t, Top(Stack(s, t)), c).frame)
  {
    AdvanceShape(s, t, c, s2);
  }

  lemma AdvanceFrames(s: State, t: Tid, c: Choice, s2: State)
    requires Steps(s, t, c, s2)
    ensures FramesInv(s2)
  {
    forall u, j | 0 <= j < |Stack(s2, u)| ensures FrameInv(s2.g, u, Stack(s2, u)[j]) {
      FrameAfter(s, t, c, s2, u, j);
      if u == t && j == |Stack(s, t)| - 1 {
        SteppedFrameAdvances(s, t, c, s2);
      } else {
        OtherFrameAdvances(s, t, c, s2, u, j);
      }
    }
    AdvanceCallouts(s, t, c, s2);
  }

  lemma AdvanceCallouts(s: State, t: Tid, c: Choice, s2: State)
    requires Steps(s, t, c, s2)
    ensures forall u, j :: 0 <= j < |Stack(s2, u)| - 1 ==> IsCallout(Stack(s2, u)[j])
  {
    AdvanceShape(s, t, c, s2);
    forall u, j | 0 <= j < |Stack(s2, u)| - 1 ensures IsCallout(Stack(s2, u)[j]) {
      assert Stack(s2, u)[j] == Stack(s, u)[j];
    }
  }

  /** What a token's bearer says about the globals. */
  lemma TokenIsBacked(g: Shared, t: Tid, h: Frame)
    requires SharedInv(g) && FrameInv(g, t, h)
    ensures TokenOf(h) == Some(InitToken) ==> g.initMu == Some(t)
    ensures TokenOf(h) == Some(NoticeToken) ==> g.noticed
    ensures TokenOf(h).Some? && TokenOf(h).value.TicketToken? ==> TokenOf(h).value.ticket < CountWins(g.log)
  {
    match TokenOf(h)
    case Some(TicketToken(k)) => TicketsBelowWins(g.log, k);
    case _ =>
  }

  /** The stepped frame's token is on no other frame. */
  lemma SteppedTokenIsNew(s: State, t: Tid, c: Choice, s2: State, u: Tid, j: int)
    requires Steps(s, t, c, s2) && LocalStep(s.g, t, Top(Stack(s, t)), c).Next?
    requires 0 <= j < |Stack(s, u)| && !(u == t && j == |Stack(s, t)| - 1)
    ensures TokenOf(Stack(s, u)[j]).None?
            || TokenOf(Stack(s, u)[j]) != TokenOf(LocalStep(s.g, t, Top(Stack(s, t)), c).frame)
  {
    AdvanceShape(s, t, c, s2);
    BelowOrBeside(s, t, u, j);
    assert FrameInv(s.g, u, Stack(s, u)[j]);
    TokenIsBacked(s.g, u, Stack(s, u)[j]);
  }

  lemma AdvanceTokens(s: State, t: Tid, c: Choice, s2: State)
    requires Steps(s, t, c, s2)
    ensures TokensInv(s2)
  {
    AdvanceShape(s, t, c, s2);
    var n := |Stack(s, t)| - 1;
    forall u, i, v, j | 0 <= i < |Stack(s2, u)| && 0 <= j < |Stack(s2, v)|
      && TokenOf(Stack(s2, u)[i]).Some? && TokenOf(Stack(s2, u)[i]) == TokenOf(Stack(s2, v)[j])
      ensures u == v && i == j
    {
      var newU, newV := u == t && i == n, v == t && j == n;
      if !newU { assert Stack(s2, u)[i] == Stack(s, u)[i]; }
      if !newV { assert Stack(s2, v)[j] == Stack(s, v)[j]; }
      if newU && !newV { SteppedTokenIsNew(s, t, c, s2, v, j); }
      if newV && !newU { SteppedTokenIsNew(s, t, c, s2, u, i); }
    }
  }

  lemma AdvanceLocks(s: State, t: Tid, c: Choice, s2: State)
    requires Steps(s, t, c, s2)
    ensures LockInv(s2)
  {
    AdvanceShape(s, t, c, s2);
    var n := |Stack(s, t)| - 1;
    if s2.g.initMu.Some? {
      var v := s2.g.initMu.value;
      if s2.g.initMu == s.g.initMu {
        var i :| 0 <= i < |Stack(s, v)| && TokenOf(Stack(s, v)[i]) == Some(InitToken);
        assert v != t || i < n ==> Stack(s2, v)[i] == Stack(s, v)[i];
        assert TokenOf(Stack(s2, v)[i]) == Some(InitToken);
      } else {
        assert TokenOf(Stack(s2, v)[n]) == Some(InitToken);
      }
    }
  }

  lemma AdvanceKeeps(s: State, t: Tid, c: Choice, s2: State)
    requires Steps(s, t, c, s2)
    ensures Inv(s2)
  {
    AdvanceShape(s, t, c, s2);
    AdvanceFrames(s, t, c, s2);
    AdvanceTokens(s, t, c, s2);
    AdvanceLocks(s, t, c, s2);
  }

  lemma PushShape(s: State, t: Tid, a: Action, s2: State)
    requires Inv(s) && !a.Advance? && Apply(s, t, a) == Some(s2)
    ensures s2.g == s.g.(noticed := s2.g.noticed)
    ensures s2.g.noticed == (s.g.noticed || a.Notify?)
    ensures a.Notify? ==> !s.g.noticed && s.g.ready
    ensures forall u :: u != t ==> Stack(s2, u) == Stack(s, u)
    ensures Stack(s2, t) == Stack(s, t) + [if a.Call? then Entry(a.op) else NoticeF(NoticeStore(a.reason))]
    ensures Stack(s, t) == [] || IsCallout(Top(Stack(s, t)))
  {
  }

  lemma NoticedKeepsFrames(g: Shared, u: Tid, h: Frame)
    requires FrameInv(g, u, h)
    ensures FrameInv(g.(noticed := true), u, h)
  {
  }

  lemma PushFrames(s: State, t: Tid, a: Action, s2: State)
    requires Inv(s) && !a.Advance? && Apply(s, t, a) == Some(s2)
    ensures FramesInv(s2)
  {
    PushShape(s, t, a, s2);
    var n := |Stack(s, t)|;
    forall u, j | 0 <= j < |Stack(s2, u)| ensures FrameInv(s2.g, u, Stack(s2, u)[j]) {
      if !(u == t && j == n) {
        assert Stack(s2, u)[j] == Stack(s, u)[j];
        assert FrameInv(s.g, u, Stack(s, u)[j]);
        if a.Notify? { NoticedKeepsFrames(s.g, u, Stack(s, u)[j]); }
      }
    }
    forall u, j | 0 <= j < |Stack(s2, u)| - 1 ensures IsCallout(Stack(s2, u)[j]) {
      assert Stack(s2, u)[j] == Stack(s, u)[j];
    }
  }

  /** A pushed frame's token is on no other frame. */
  lemma PushedTokenIsNew(s: State, t: Tid, a: Action, s2: State, u: Tid, j: int)
    requires Inv(s) && !a.Advance? && Apply(s, t, a) == Some(s2)
    requires 0 <= j < |Stack(s, u)| && TokenOf(Stack(s, u)[j]).Some?
    ensures TokenOf(Stack(s, u)[j]) != TokenOf(Stack(s2, t)[|Stack(s, t)|])
  {
    PushShape(s, t, a, s2);
    assert FrameInv(s.g, u, Stack(s, u)[j]);
    TokenIsBacked(s.g, u, Stack(s, u)[j]);
  }

  lemma PushTokens(s: State, t: Tid, a: Action, s2: State)
    requires Inv(s) && !a.Advance? && Apply(s, t, a) == Some(s2)
    ensures TokensInv(s2)
  {
    PushShape(s, t, a, s2);
    var n := |Stack(s, t)|;
    forall u, i, v, j | 0 <= i < |Stack(s2, u)| && 0 <= j < |Stack(s2, v)|
      && TokenOf(Stack(s2, u)[i]).Some? && TokenOf(Stack(s2, u)[i]) == TokenOf(Stack(s2, v)[j])
      ensures u == v && i == j
    {
      var newU, newV := u == t && i == n, v == t && j == n;
      if !newU { assert Stack(s2, u)[i] == Stack(s, u)[i]; }
      if !newV { assert Stack(s2, v)[j] == Stack(s, v)[j]; }
      if newU && !newV { PushedTokenIsNew(s, t, a, s2, v, j); }
      if newV && !newU { PushedTokenIsNew(s, t, a, s2, u, i); }
    }
  }

  lemma PushLocks(s: State, t: Tid, a: Action, s2: State)
    requires Inv(s) && !a.Advance? && Apply(s, t, a) == Some(s2)
    ensures LockInv(s2)
  {
    PushShape(s, t, a, s2);
    if s.g.initMu.Some? {
      var v := s.g.initMu.value;
      var i :| 0 <= i < |Stack(s, v)| && TokenOf(Stack(s, v)[i]) == Some(InitToken);
      assert TokenOf(Stack(s2, v)[i]) == Some(InitToken);
    }
  }

  /** A call in, or the engine's notification, starts a new frame. */
  lemma PushKeeps(s: State, t: Tid, a: Action, s2: State)
    requires Inv(s) && !a.Advance? && Apply(s, t, a) == Some(s2)
    ensures Inv(s2)
  {
    PushShape(s, t, a, s2);
    PushFrames(s, t, a, s2);
    PushTokens(s, t, a, s2);
    PushLocks(s, t, a, s2);
  }

  /** Every state any schedule reaches satisfies the invariant. */
  lemma {:induction false} EveryScheduleKeepsInv(sched: Schedule)
    requires Execute(sched).Some?
    ensures Inv(Execute(sched).value)
  {
    if sched != [] {
      var prefix, last := sched[..|sched| - 1], sched[|sched| - 1];
      EveryScheduleKeepsInv(prefix);
      var s := Execute(prefix).value;
      match last.1
      case Advance(c) => AdvanceKeeps(s, last.0, c, Execute(sched).value);
      case _ => PushKeeps(s, last.0, last.1, Execute(sched).value);
    }
  }
}
