/** Every context an init makes is published, cancelled, or still in the hands of that init: a
    failed or panicking build leaks none. */
module LifecycleContexts {
  import opened Common
  import opened Lifecycle
  import opened LifecycleInvariant
  import opened LifecycleProgress

  /** The init frame that has made the context and has neither published nor cancelled it. */
  predicate Holds(f: Frame, ctx: Ctx) {
    && f.InitF?
    && (f.init.InitBuild? || f.init.InitAbort? || f.init.InitPanicUnlock? || f.init.InitPanicCancel?
        || f.init.InitPubLock? || f.init.InitPubCancel?)
    && f.init.ctx == ctx
  }

  ghost predicate Held(s: State, ctx: Ctx) {
    exists t, i :: 0 <= i < |Stack(s, t)| && Holds(Stack(s, t)[i], ctx)
  }

  predicate Settled(g: Shared, ctx: Ctx) {
    ctx in g.cancelled || g.cancel == Some(ctx)
  }

  /** What a step does to a context: it stays settled, it is handed on or settled by the frame that
      holds it, and a new one is held by the frame that made it. */
  ghost predicate HandsOn(g: Shared, f: Frame, o: Outcome, ctx: Ctx) {
    o.Blocked?
    || (&& (Settled(g, ctx) ==> Settled(o.g, ctx))
        && (Holds(f, ctx) || g.nextCtx <= ctx < o.g.nextCtx ==>
              Settled(o.g, ctx) || (o.Next? && Holds(o.frame, ctx))))
  }

  lemma InitHandsOn(g: Shared, t: Tid, pc: InitPc, c: Choice, ctx: Ctx)
    requires FrameInv(g, t, InitF(pc))
    ensures HandsOn(g, InitF(pc), InitStep(g, t, pc, c), ctx)
  {
  }

  lemma RunHandsOn(g: Shared, t: Tid, pc: RunPc, c: Choice, ctx: Ctx)
    ensures HandsOn(g, RunF(pc), RunStep(g, t, pc, c), ctx)
  {
  }

  lemma StopHandsOn(g: Shared, t: Tid, pc: StopPc, ctx: Ctx)
    ensures HandsOn(g, StopF(pc), StopStep(g, t, pc), ctx)
  {
  }

  lemma SignalHandsOn(g: Shared, t: Tid, pc: SigPc, via: Driver, ctx: Ctx)
    ensures HandsOn(g, SigF(pc, via), SignalStep(g, t, pc, via), ctx)
  {
  }

  lemma PeekHandsOn(g: Shared, t: Tid, pc: PeekPc, op: Peek, ctx: Ctx)
    ensures HandsOn(g, PeekF(pc, op), PeekStep(g, t, pc, op), ctx)
  {
  }

  lemma NoticeHandsOn(g: Shared, t: Tid, pc: NoticePc, ctx: Ctx)
    ensures HandsOn(g, NoticeF(pc), NoticeStep(g, t, pc), ctx)
  {
  }

  lemma StepHandsOn(g: Shared, t: Tid, f: Frame, c: Choice, ctx: Ctx)
    requires FrameInv(g, t, f)
    ensures HandsOn(g, f, LocalStep(g, t, f, c), ctx)
  {
    match f
    case InitF(pc) => InitHandsOn(g, t, pc, c, ctx);
    case RunF(pc) => RunHandsOn(g, t, pc, c, ctx);
    case StopF(pc) => StopHandsOn(g, t, pc, ctx);
    case SigF(pc, via) => SignalHandsOn(g, t, pc, via, ctx);
    case PeekF(pc, op) => PeekHandsOn(g, t, pc, op, ctx);
    case NoticeF(pc) => NoticeHandsOn(g, t, pc, ctx);
  }

  ghost predicate Accounted(s: State, ctx: Ctx) {
    ctx < s.g.nextCtx ==> Settled(s.g, ctx) || Held(s, ctx)
  }

  lemma HeldBeside(s: State, t: Tid, c: Choice, s2: State, u: Tid, j: int, ctx: Ctx)
    requires Steps(s, t, c, s2) && 0 <= j < |Stack(s, u)| && Holds(Stack(s, u)[j], ctx)
    requires !(u == t && j == |Stack(s, t)| - 1)
    ensures Held(s2, ctx)
  {
    OtherFramesStay(s, t, c, s2, u, j);
    assert Holds(Stack(s2, u)[j], ctx);
  }

  lemma AdvanceAccounts(s: State, t: Tid, c: Choice, s2: State, ctx: Ctx)
    requires Steps(s, t, c, s2) && Accounted(s, ctx)
    ensures Accounted(s2, ctx)
  {
    var n := |Stack(s, t)| - 1;
    var f := Stack(s, t)[n];
    AdvanceShape(s, t, c, s2);
    assert FrameInv(s.g, t, f);
    StepHandsOn(s.g, t, f, c, ctx);
    var o := LocalStep(s.g, t, f, c);
    if o.Next? && Holds(o.frame, ctx) {
      assert Holds(Stack(s2, t)[n], ctx);
    } else if ctx < s.g.nextCtx && !Settled(s.g, ctx) {
      var u, j :| 0 <= j < |Stack(s, u)| && Holds(Stack(s, u)[j], ctx);
      if !(u == t && j == n) { HeldBeside(s, t, c, s2, u, j, ctx); }
    }
  }

  lemma PushAccounts(s: State, t: Tid, a: Action, s2: State, ctx: Ctx)
    requires Inv(s) && !a.Advance? && Apply(s, t, a) == Some(s2) && Accounted(s, ctx)
    ensures Accounted(s2, ctx)
  {
    PushShape(s, t, a, s2);
    if ctx < s.g.nextCtx && !Settled(s.g, ctx) {
      var u, j :| 0 <= j < |Stack(s, u)| && Holds(Stack(s, u)[j], ctx);
      assert Holds(Stack(s2, u)[j], ctx);
    }
  }

  /** No context leaks: in every state of every schedule each context that was made is cancelled,
      published, or held by an init in progress; and one whose build failed or panicked is
      cancelled, or its init's next step cancels it. */
  lemma {:induction false} NoContextLeaks(sched: Schedule, ctx: Ctx)
    requires Execute(sched).Some?
    ensures Accounted(Execute(sched).value, ctx)
    ensures var s := Execute(sched).value;
            ctx in s.g.dead && ctx !in s.g.cancelled ==>
              exists t, i :: 0 <= i < |Stack(s, t)| && Stack(s, t)[i] == InitF(InitPanicCancel(ctx))
  {
    EveryScheduleKeepsInv(sched);
    if sched != [] {
      var prefix, last := sched[..|sched| - 1], sched[|sched| - 1];
      EveryScheduleKeepsInv(prefix);
      NoContextLeaks(prefix, ctx);
      match last.1
      case Advance(c) => AdvanceAccounts(Execute(prefix).value, last.0, c, Execute(sched).value, ctx);
      case _ => PushAccounts(Execute(prefix).value, last.0, last.1, Execute(sched).value, ctx);
    }
    var s := Execute(sched).value;
    if ctx in s.g.dead && ctx !in s.g.cancelled { DeadIsBeingCancelled(s, ctx); }
  }

  lemma DeadIsBeingCancelled(s: State, ctx: Ctx)
    requires Inv(s) && Accounted(s, ctx) && ctx in s.g.dead && ctx !in s.g.cancelled
    ensures exists t, i :: 0 <= i < |Stack(s, t)| && Stack(s, t)[i] == InitF(InitPanicCancel(ctx))
  {
    var t, i :| 0 <= i < |Stack(s, t)| && Holds(Stack(s, t)[i], ctx);
    assert FrameInv(s.g, t, Stack(s, t)[i]);
  }
}
