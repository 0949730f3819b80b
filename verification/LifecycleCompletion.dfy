/** Once init has published, no call in progress is ever stuck: unless it is parked on an open
    channel, some continuation made of the calls in progress alone brings it to its end. */
module LifecycleCompletion {
  import opened Common
  import opened Lifecycle
  import opened LifecycleInvariant
  import opened LifecycleProgress
  import opened LifecycleTheorems
  import Schedules

  predicate OnlyAdvances(more: Schedule) {
    forall i :: 0 <= i < |more| ==> more[i].1.Advance?
  }

  ghost predicate OnlyOn(s: State, via: Driver, u: Tid) {
    forall t, j :: 0 <= j < |Stack(s, t)| && Carries(Stack(s, t)[j], via) ==> t == u
  }

  /** What no step undoes. */
  ghost predicate Kept(s: State, s2: State) {
    && Inv(s2)
    && (s.g.ready ==> s2.g.ready) && (s.g.closed ==> s2.g.closed) && s2.g.noticed == s.g.noticed
    && (forall u: Tid :: OnlyOn(s, Notice, u) ==> OnlyOn(s2, Notice, u))
  }

  /** The frames in progress can take s to s2. */
  ghost predicate Leads(s: State, s2: State) {
    Kept(s, s2) && exists more: Schedule :: OnlyAdvances(more) && Schedules.Run(s, Act, more) == Some(s2)
  }

  lemma LeadsToItself(s: State)
    requires Inv(s)
    ensures Leads(s, s)
  {
    var none: Schedule := [];
    assert OnlyAdvances(none) && Schedules.Run(s, Act, none) == Some(s);
  }

  lemma LeadsOn(s: State, s1: State, s2: State)
    requires Leads(s, s1) && Leads(s1, s2)
    ensures Leads(s, s2)
  {
    var a: Schedule :| OnlyAdvances(a) && Schedules.Run(s, Act, a) == Some(s1);
    var b: Schedule :| OnlyAdvances(b) && Schedules.Run(s1, Act, b) == Some(s2);
    Schedules.RunOfConcat(s, Act, a, b);
    assert OnlyAdvances(a + b);
  }

  predicate StaysReady(g: Shared, o: Outcome) {
    o.Blocked? || ((g.ready ==> o.g.ready) && (g.closed ==> o.g.closed))
  }

  lemma InitStaysReady(g: Shared, t: Tid, pc: InitPc, c: Choice)
    ensures StaysReady(g, InitStep(g, t, pc, c))
  {
  }

  lemma RunStaysReady(g: Shared, t: Tid, pc: RunPc, c: Choice)
    ensures StaysReady(g, RunStep(g, t, pc, c))
  {
  }

  lemma StopStaysReady(g: Shared, t: Tid, pc: StopPc)
    ensures StaysReady(g, StopStep(g, t, pc))
  {
  }

  lemma SignalStaysReady(g: Shared, t: Tid, pc: SigPc, via: Driver)
    ensures StaysReady(g, SignalStep(g, t, pc, via))
  {
  }

  lemma PeekStaysReady(g: Shared, t: Tid, pc: PeekPc, op: Peek)
    ensures StaysReady(g, PeekStep(g, t, pc, op))
  {
  }

  lemma NoticeStaysReady(g: Shared, t: Tid, pc: NoticePc)
    ensures StaysReady(g, NoticeStep(g, t, pc))
  {
  }

  lemma ReadyAndClosedStay(g: Shared, t: Tid, f: Frame, c: Choice)
    ensures StaysReady(g, LocalStep(g, t, f, c))
  {
    match f
    case InitF(pc) => InitStaysReady(g, t, pc, c);
    case RunF(pc) => RunStaysReady(g, t, pc, c);
    case StopF(pc) => StopStaysReady(g, t, pc);
    case SigF(pc, via) => SignalStaysReady(g, t, pc, via);
    case PeekF(pc, op) => PeekStaysReady(g, t, pc, op);
    case NoticeF(pc) => NoticeStaysReady(g, t, pc);
  }

  lemma NoticeStaysOn(s: State, t: Tid, c: Choice, s2: State, u: Tid)
    requires Steps(s, t, c, s2) && OnlyOn(s, Notice, u)
    ensures OnlyOn(s2, Notice, u)
  {
    AdvanceShape(s, t, c, s2);
    var n := |Stack(s, t)| - 1;
    forall w, j | 0 <= j < |Stack(s2, w)| && Carries(Stack(s2, w)[j], Notice) ensures w == u {
      FrameAfter(s, t, c, s2, w, j);
      if w == t && j == n {
        assert Carries(Stack(s, t)[n], Notice);
      } else {
        assert Carries(Stack(s, w)[j], Notice);
      }
    }
  }

  lemma LeadsByAStep(s: State, t: Tid, c: Choice, s2: State)
    requires Steps(s, t, c, s2)
    ensures Leads(s, s2)
  {
    AdvanceKeeps(s, t, c, s2);
    AdvanceShape(s, t, c, s2);
    ReadyAndClosedStay(s.g, t, Top(Stack(s, t)), c);
    forall u: Tid | OnlyOn(s, Notice, u) ensures OnlyOn(s2, Notice, u) { NoticeStaysOn(s, t, c, s2, u); }
    var one := [(t, Advance(c))];
    assert one[..0] == [];
    assert OnlyAdvances(one) && Schedules.Run(s, Act, one) == Some(s2);
  }

  // -- Freeing the locks ----------------------------------------------------------

  lemma CriticalInitKeepsInitMu(g: Shared, t: Tid, pc: InitPc, c: Choice)
    requires InMu(InitF(pc))
    ensures var o := InitStep(g, t, pc, c); o.Blocked? || o.g.initMu == g.initMu
  {
  }

  lemma CriticalRunKeepsInitMu(g: Shared, t: Tid, pc: RunPc, c: Choice)
    requires InMu(RunF(pc))
    ensures var o := RunStep(g, t, pc, c); o.Blocked? || o.g.initMu == g.initMu
  {
  }

  lemma CriticalKeepsInitMu(g: Shared, t: Tid, f: Frame, c: Choice)
    requires InMu(f)
    ensures var o := LocalStep(g, t, f, c); o.Blocked? || o.g.initMu == g.initMu
  {
    match f
    case InitF(pc) => CriticalInitKeepsInitMu(g, t, pc, c);
    case RunF(pc) => CriticalRunKeepsInitMu(g, t, pc, c);
    case _ =>
  }

  /** The holder of state.mu runs out of its section; nobody else moves. */
  lemma FreeMu(s: State) returns (s2: State)
    requires Inv(s)
    ensures Leads(s, s2) && s2.g.mu == None && s2.g.initMu == s.g.initMu
    ensures forall u: Tid :: s.g.mu != Some(u) ==> Stack(s2, u) == Stack(s, u)
    decreases if s.g.mu.None? then 0 else 1 + CriticalSteps(Top(Stack(s, s.g.mu.value)))
  {
    if s.g.mu.None? {
      LeadsToItself(s);
      s2 := s;
    } else {
      var t := s.g.mu.value;
      CriticalStep(s.g, t, Top(Stack(s, t)), Fails);
      CriticalKeepsInitMu(s.g, t, Top(Stack(s, t)), Fails);
      var s1 := Apply(s, t, Advance(Fails)).value;
      LeadsByAStep(s, t, Fails, s1);
      AdvanceShape(s, t, Fails, s1);
      s2 := FreeMu(s1);
      LeadsOn(s, s1, s2);
    }
  }

  /** Steps left in a frame once init has published, when a fallible step fails. */
  function Rank(f: Frame): nat {
    match f
    case InitF(pc) =>
      if pc.InitEnter? then 6
      else if pc.InitCheckLock? then 5
      else if pc.InitCheckRead? then 4
      else if pc.InitCheckUnlock? then 3
      else if pc.InitParse? || pc.InitSeal? then 2
      else 1
    case RunF(pc) =>
      if pc.RunLock? then 6
      else if pc.RunReadConsumer? then 5
      else if pc.RunReadDone? then 4
      else if pc.RunUnlock? then 3
      else if pc.RunOpen? then 2
      else 1
    case StopF(pc) =>
      if pc.StopLock? then 12
      else if pc.StopReadConsumer? then 11
      else if pc.StopReadCancel? then 10
      else if pc.StopUnlock? then 9
      else if pc.StopCas? then 8
      else if pc.StopCall? then 7
      else if pc.StopShutdown? then 6
      else 5
    case SigF(pc, _) => if pc.SigLock? then 4 else if pc.SigRead? then 3 else if pc.SigUnlock? then 2 else 1
    case PeekF(pc, _) =>
      if pc.PeekLock? then 5
      else if pc.PeekRead? then 4
      else if pc.PeekUnlock? then 3
      else if pc.PeekCall? then 2
      else 1
    case NoticeF(pc) =>
      if pc.NoticeStore? then 13
      else if pc.NoticeHandler? then 12
      else if pc.CleanLock? then 11
      else if pc.CleanReadCleanup? then 10
      else if pc.CleanReadCancel? then 9
      else if pc.CleanUnlock? then 8
      else if pc.CleanCall? then 7
      else if pc.CleanRun? then 6
      else 5
  }

  /** What may hold a frame up: a lock that is taken, or the open channel. */
  predicate Waits(g: Shared, f: Frame) {
    || (WantsMu(f) && g.mu.Some?)
    || (f == InitF(InitEnter) && g.initMu.Some?)
    || (f.RunF? && f.run.RunPark? && !g.closed)
  }

  /** Any other step brings the frame nearer to its end, and never parks it. */
  ghost predicate Descends(g: Shared, f: Frame, o: Outcome) {
    match o
    case Blocked => Waits(g, f)
    case Next(_, f2) => Rank(f2) < Rank(f) && !(f2.RunF? && f2.run.RunPark?)
    case Return(_) => true
  }

  lemma InitDescends(g: Shared, t: Tid, pc: InitPc)
    requires FrameInv(g, t, InitF(pc)) && PublishedAll(g)
    ensures Descends(g, InitF(pc), InitStep(g, t, pc, Fails))
    ensures var o := InitStep(g, t, pc, Fails);
            o.Next? && TokenOf(InitF(pc)) == Some(InitToken) ==> o.g.initMu == g.initMu && o.frame.InitF?
    ensures var o := InitStep(g, t, pc, Fails);
            o.Return? && TokenOf(InitF(pc)) == Some(InitToken) ==> o.g.initMu == None
  {
  }

  lemma RunDescends(g: Shared, t: Tid, pc: RunPc)
    requires FrameInv(g, t, RunF(pc)) && PublishedAll(g)
    ensures Descends(g, RunF(pc), RunStep(g, t, pc, Fails))
  {
  }

  lemma StopDescends(g: Shared, t: Tid, pc: StopPc)
    ensures Descends(g, StopF(pc), StopStep(g, t, pc))
  {
  }

  lemma NoticeDescends(g: Shared, t: Tid, pc: NoticePc)
    ensures Descends(g, NoticeF(pc), NoticeStep(g, t, pc))
  {
  }

  lemma StepDescends(g: Shared, t: Tid, f: Frame)
    requires FrameInv(g, t, f) && PublishedAll(g)
    ensures Descends(g, f, LocalStep(g, t, f, Fails))
  {
    match f
    case InitF(pc) => InitDescends(g, t, pc);
    case RunF(pc) => RunDescends(g, t, pc);
    case StopF(pc) => StopDescends(g, t, pc);
    case NoticeF(pc) => NoticeDescends(g, t, pc);
    case _ =>
  }

  /** Once init has published, the holder of initMu is on top of its thread's stack. */
  lemma InitHolderIsOnTop(s: State, t: Tid)
    requires Inv(s) && s.g.ready && s.g.initMu == Some(t)
    ensures Stack(s, t) != [] && TokenOf(Top(Stack(s, t))) == Some(InitToken)
  {
    var i :| 0 <= i < |Stack(s, t)| && TokenOf(Stack(s, t)[i]) == Some(InitToken);
    assert FrameInv(s.g, t, Stack(s, t)[i]);
    assert !IsCallout(Stack(s, t)[i]);
  }

  predicate HoldsNoLock(g: Shared, u: Tid) {
    g.mu != Some(u) && g.initMu != Some(u)
  }

  /** The init that holds initMu takes a step, once it can. */
  lemma InitHolderSteps(s: State, t: Tid) returns (s2: State)
    requires Inv(s) && s.g.ready && s.g.initMu == Some(t)
    requires WantsMu(Top(Stack(s, t))) ==> s.g.mu == None
    ensures Leads(s, s2) && (forall u: Tid :: u != t ==> Stack(s2, u) == Stack(s, u))
    ensures forall u: Tid :: HoldsNoLock(s.g, u) ==> HoldsNoLock(s2.g, u)
    ensures s2.g.initMu == None
            || (s2.g.initMu == Some(t) && Rank(Top(Stack(s2, t))) < Rank(Top(Stack(s, t))))
  {
    InitHolderIsOnTop(s, t);
    TopCanStep(s, t);
    InitDescends(s.g, t, Top(Stack(s, t)).init);
    s2 := Apply(s, t, Advance(Fails)).value;
    LeadsByAStep(s, t, Fails, s2);
    AdvanceShape(s, t, Fails, s2);
  }

  /** Nobody holds initMu for ever. */
  lemma FreeInit(s: State) returns (s2: State)
    requires Inv(s) && s.g.ready
    ensures Leads(s, s2) && s2.g.initMu == None
    ensures forall u: Tid :: HoldsNoLock(s.g, u) ==> Stack(s2, u) == Stack(s, u)
    decreases if s.g.initMu.None? then 0 else 1 + Rank(Top(Stack(s, s.g.initMu.value)))
  {
    if s.g.initMu.None? {
      LeadsToItself(s);
      s2 := s;
    } else {
      var t := s.g.initMu.value;
      InitHolderIsOnTop(s, t);
      var s1 := s;
      LeadsToItself(s);
      if WantsMu(Top(Stack(s, t))) { s1 := FreeMu(s); }
      var s3 := InitHolderSteps(s1, t);
      LeadsOn(s, s1, s3);
      s2 := FreeInit(s3);
      LeadsOn(s, s3, s2);
    }
  }

  // -- Every call can finish --------------------------------------------------------

  function StackRank(fs: seq<Frame>): nat {
    if fs == [] then 0 else StackRank(fs[..|fs| - 1]) + Rank(Top(fs))
  }

  predicate NoneParked(fs: seq<Frame>) {
    forall i :: 0 <= i < |fs| ==> !(fs[i].RunF? && fs[i].run.RunPark?)
  }

  /** Nothing on thread u waits for an open channel. */
  predicate CanGoHome(s: State, u: Tid) {
    s.g.ready && (s.g.closed || NoneParked(Stack(s, u)))
  }

  lemma OwnStep(s: State, u: Tid) returns (s2: State)
    requires Inv(s) && CanGoHome(s, u) && Stack(s, u) != [] && !Waits(s.g, Top(Stack(s, u)))
    ensures Leads(s, s2) && CanGoHome(s2, u) && StackRank(Stack(s2, u)) < StackRank(Stack(s, u))
  {
    TopCanStep(s, u);
    StepDescends(s.g, u, Top(Stack(s, u)));
    s2 := Apply(s, u, Advance(Fails)).value;
    LeadsByAStep(s, u, Fails, s2);
    AdvanceShape(s, u, Fails, s2);
    var fs, fs2 := Stack(s, u), Stack(s2, u);
    if LocalStep(s.g, u, Top(fs), Fails).Next? {
      assert fs2[..|fs2| - 1] == fs[..|fs| - 1];
    } else {
      assert fs2 == fs[..|fs| - 1];
      RankIsPositive(Top(fs));
    }
  }

  lemma RankIsPositive(f: Frame)
    ensures Rank(f) > 0
  {
  }

  /** The locks u waits for are freed first. */
  lemma Unblock(s: State, u: Tid) returns (s2: State)
    requires Inv(s) && CanGoHome(s, u) && Stack(s, u) != []
    ensures Leads(s, s2) && Stack(s2, u) == Stack(s, u) && CanGoHome(s2, u)
    ensures !Waits(s2.g, Top(Stack(s2, u)))
  {
    var f := Top(Stack(s, u));
    assert Stack(s, u)[|Stack(s, u)| - 1] == f;
    if s.g.initMu == Some(u) { InitHolderIsOnTop(s, u); }
    if WantsMu(f) {
      s2 := FreeMu(s);
    } else if f == InitF(InitEnter) {
      s2 := FreeInit(s);
    } else {
      LeadsToItself(s);
      s2 := s;
    }
  }

  lemma GoHome(s: State, u: Tid) returns (s2: State)
    requires Inv(s) && CanGoHome(s, u)
    ensures Leads(s, s2) && Stack(s2, u) == []
    decreases StackRank(Stack(s, u))
  {
    if Stack(s, u) == [] {
      LeadsToItself(s);
      s2 := s;
    } else {
      var s1 := Unblock(s, u);
      var s3 := OwnStep(s1, u);
      LeadsOn(s, s1, s3);
      s2 := GoHome(s3, u);
      LeadsOn(s, s3, s2);
    }
  }

  /** Once init has published there is no deadlock: in every state of every schedule, a thread
      with no run parked on an open channel can be brought to the end of all its calls, by
      steps of the calls in progress alone. */
  lemma EveryCallCanFinish(sched: Schedule, u: Tid) returns (more: Schedule)
    requires Execute(sched).Some? && Execute(sched).value.g.ready
    requires Execute(sched).value.g.closed || NoneParked(Stack(Execute(sched).value, u))
    ensures OnlyAdvances(more) && Execute(sched + more).Some? && Stack(Execute(sched + more).value, u) == []
    ensures OnlyOn(Execute(sched).value, Notice, u) ==> OnlyOn(Execute(sched + more).value, Notice, u)
    ensures Execute(sched + more).value.g.noticed == Execute(sched).value.g.noticed
  {
    EveryScheduleKeepsInv(sched);
    var s2 := GoHome(Execute(sched).value, u);
    more :| OnlyAdvances(more) && Schedules.Run(Execute(sched).value, Act, more) == Some(s2);
    Schedules.RunOfConcat(START, Act, sched, more);
  }

  /** A notification in progress can still signal once the channel is closed. */
  lemma NoticeCanSignal(sched: Schedule) returns (more: Schedule)
    requires Execute(sched).Some? && Execute(sched).value.g.noticed && Execute(sched).value.g.closed
    ensures Execute(sched + more).Some? && SignalledBy(Execute(sched + more).value.g.log, Notice)
  {
    EveryScheduleKeepsInv(sched);
    NoDriverGetsLost(sched, Notice);
    var s := Execute(sched).value;
    if SignalledBy(s.g.log, Notice) {
      more := [];
      assert sched + more == sched;
    } else {
      var u, j :| 0 <= j < |Stack(s, u)| && Carries(Stack(s, u)[j], Notice);
      assert OnlyOn(s, Notice, u);
      more := EveryCallCanFinish(sched, u);
      NoDriverGetsLost(sched + more, Notice);
    }
  }
}
