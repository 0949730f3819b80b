/** The two calls that only forward to the engine: an emergency stop and a snapshot. */
module LifecyclePeeks {
  import opened Common
  import opened Lifecycle
  import opened LifecycleInvariant

  /** What the host's call asks of the engine. */
  predicate Asks(call: HostCall, op: Peek) {
    (call.EmergencyStop? && op.EmergencyShutdown?) || (call.Snapshot? && op.TakeSnapshot?)
  }

  ghost predicate OnTop(s: State, t: Tid, f: Frame) {
    Stack(s, t) != [] && Top(Stack(s, t)) == f
  }

  /** The call reads the consumer as it is published: either init has published everything, or
      nothing. */
  lemma PeekReadsThePublication(sched: Schedule, t: Tid, op: Peek, c: Choice)
    requires Execute(sched).Some? && OnTop(Execute(sched).value, t, PeekF(PeekRead, op))
    ensures var s, o := Execute(sched).value, Apply(Execute(sched).value, t, Advance(c));
      o.Some? && o.value.g == s.g && OnTop(o.value, t, PeekF(PeekUnlock(s.g.ready), op))
  {
    EveryScheduleKeepsInv(sched);
    TopCanStep(Execute(sched).value, t);
  }

  /** It goes through to the engine with its own operation exactly when the consumer it read was
      published; otherwise it returns and nothing has changed. */
  lemma PeekGoesThroughExactly(s: State, t: Tid, consumer: bool, op: Peek, c: Choice)
    requires OnTop(s, t, PeekF(PeekCall(consumer), op))
    ensures var o := Apply(s, t, Advance(c));
      && o.Some? && o.value.g == s.g
      && (if consumer then OnTop(o.value, t, PeekF(PeekEngine, op)) && |Stack(o.value, t)| == |Stack(s, t)|
          else Stack(o.value, t) == Stack(s, t)[..|Stack(s, t)| - 1])
  {
  }

  // -- A call that begins after init has published ---------------------------------------------------

  /** The call at frame j of t's stack is on its way to the engine, or in it. */
  ghost predicate OnItsWay(s: State, t: Tid, j: nat, op: Peek) {
    && s.g.ready && j < |Stack(s, t)|
    && var f := Stack(s, t)[j];
       && f.PeekF? && f.op == op
       && (f.peek.PeekUnlock? || f.peek.PeekCall? ==> f.peek.consumer)
  }

  ghost predicate InTheEngine(s: State, t: Tid, j: nat, op: Peek) {
    |Stack(s, t)| == j + 1 && Stack(s, t)[j] == PeekF(PeekEngine, op)
  }

  lemma PeekMovesOn(g: Shared, t: Tid, pc: PeekPc, op: Peek, c: Choice)
    requires FrameInv(g, t, PeekF(pc, op)) && PublishedAll(g)
    requires pc.PeekUnlock? || pc.PeekCall? ==> pc.consumer
    ensures match PeekStep(g, t, pc, op)
            case Blocked => true
            case Next(g2, f2) =>
              && g2.ready && f2.PeekF? && f2.op == op
              && (f2.peek.PeekUnlock? || f2.peek.PeekCall? ==> f2.peek.consumer)
            case Return(_) => pc.PeekEngine?
  {
  }

  lemma ReadyStays(s: State, u: Tid, a: Action, s2: State)
    requires Inv(s) && Apply(s, u, a) == Some(s2) && s.g.ready
    ensures s2.g.ready
  {
    match a
    case Advance(c) => AdvanceShape(s, u, c, s2);
    case _ => PushShape(s, u, a, s2);
  }

  lemma OwnFrameMoves(s: State, t: Tid, c: Choice, s2: State, j: nat, op: Peek)
    requires Steps(s, t, c, s2) && OnItsWay(s, t, j, op) && j == |Stack(s, t)| - 1
    ensures OnItsWay(s2, t, j, op) || InTheEngine(s, t, j, op)
  {
    AdvanceShape(s, t, c, s2);
    assert FrameInv(s.g, t, Stack(s, t)[j]);
    PeekMovesOn(s.g, t, Stack(s, t)[j].peek, op, c);
  }

  lemma FrameBelowStays(s: State, u: Tid, a: Action, s2: State, t: Tid, j: nat, op: Peek)
    requires Inv(s) && Apply(s, u, a) == Some(s2) && OnItsWay(s, t, j, op)
    requires !(u == t && a.Advance? && j == |Stack(s, t)| - 1)
    ensures OnItsWay(s2, t, j, op)
  {
    ReadyStays(s, u, a, s2);
    match a
    case Advance(c) =>
      AdvanceShape(s, u, c, s2);
      assert Stack(s2, t)[j] == Stack(s, t)[j];
    case _ =>
      PushShape(s, u, a, s2);
      assert Stack(s2, t)[j] == Stack(s, t)[j];
  }

  lemma PeekBegins(s: State, t: Tid, call: HostCall, op: Peek, s2: State)
    requires Inv(s) && s.g.ready && Asks(call, op) && Apply(s, t, Call(call)) == Some(s2)
    ensures OnItsWay(s2, t, |Stack(s, t)|, op)
  {
    PushShape(s, t, Call(call), s2);
  }

  lemma PeekGoesOn(s: State, u: Tid, a: Action, s2: State, t: Tid, j: nat, op: Peek)
    requires Inv(s) && Apply(s, u, a) == Some(s2) && OnItsWay(s, t, j, op)
    ensures OnItsWay(s2, t, j, op) || InTheEngine(s, t, j, op)
  {
    if u == t && a.Advance? && j == |Stack(s, t)| - 1 {
      OwnFrameMoves(s, t, a.choice, s2, j, op);
    } else {
      FrameBelowStays(s, u, a, s2, t, j, op);
    }
  }

  /** An emergency stop or a snapshot that begins after init has published goes through: in every
      schedule, as long as it has not returned it is on its way, and once it has it was in the
      engine with its own operation. */
  lemma {:induction false} PeekReachesTheEngine(before: Schedule, t: Tid, call: HostCall, op: Peek, after: Schedule)
    returns (n: nat)
    requires Asks(call, op) && Execute(before).Some? && Execute(before).value.g.ready
    requires Execute(before + [(t, Call(call))] + after).Some?
    ensures n <= |after| && Execute(before + [(t, Call(call))] + after[..n]).Some?
    ensures var j := |Stack(Execute(before).value, t)|;
      || OnItsWay(Execute(before + [(t, Call(call))] + after).value, t, j, op)
      || InTheEngine(Execute(before + [(t, Call(call))] + after[..n]).value, t, j, op)
    decreases |after|
  {
    var j, sched := |Stack(Execute(before).value, t)|, before + [(t, Call(call))] + after;
    var prefix, last := sched[..|sched| - 1], sched[|sched| - 1];
    EveryScheduleKeepsInv(prefix);
    if after == [] {
      n := 0;
      assert prefix == before && after[..0] == after;
      PeekBegins(Execute(before).value, t, call, op, Execute(sched).value);
    } else {
      var shorter := after[..|after| - 1];
      assert prefix == before + [(t, Call(call))] + shorter;
      n := PeekReachesTheEngine(before, t, call, op, shorter);
      assert shorter[..n] == after[..n];
      if OnItsWay(Execute(prefix).value, t, j, op) {
        PeekGoesOn(Execute(prefix).value, last.0, last.1, Execute(sched).value, t, j, op);
        if InTheEngine(Execute(prefix).value, t, j, op) { n := |after| - 1; }
      }
    }
  }
}
