/**
  Registration of the host's callbacks: copy-on-write setters under registrationMu, lock-free
  loads, and the seal that the first successful init puts on the set. A transition system
  over any number of threads; every call carries a number of its own.
 */
module Callbacks {
  import opened Common
  import Schedules

  type Tid = nat
  type CallId = nat

  /** A C function pointer; 0 is null. */
  type FnPtr = nat

  datatype Field = Process | DeadLetter | Metrics | Shutdown | Log | Bandwidth

  datatype CallbackSet = CallbackSet(
    process: FnPtr, deadLetter: FnPtr, metrics: FnPtr, shutdown: FnPtr, log: FnPtr, bandwidth: FnPtr)

  const EMPTY := CallbackSet(0, 0, 0, 0, 0, 0)

  datatype Mutation = Mutation(id: CallId, field: Field, fn: FnPtr)

  function Mutate(s: CallbackSet, m: Mutation): CallbackSet {
    match m.field
    case Process => s.(process := m.fn)
    case DeadLetter => s.(deadLetter := m.fn)
    case Metrics => s.(metrics := m.fn)
    case Shutdown => s.(shutdown := m.fn)
    case Log => s.(log := m.fn)
    case Bandwidth => s.(bandwidth := m.fn)
  }

  function Fold(ms: seq<Mutation>): CallbackSet {
    if ms == [] then EMPTY else Mutate(Fold(ms[..|ms| - 1]), ms[|ms| - 1])
  }

  datatype Pc =
    | SetLock(m: Mutation)
    | SetCheck(m: Mutation)
    | SetLoad(m: Mutation)
    | SetStore(m: Mutation, next: CallbackSet)
    | SetUnlock(m: Mutation, applied: bool)
    | SealLock
    | SealStore
    | SealUnlock
    | Load

  /** The registration globals. History: the stored mutations in order, what each setter
      returned, each load with the number of stores before it, and how many seals returned. */
  datatype Globals = Globals(
    mu: Option<Tid>,
    sealed: bool,
    published: Option<CallbackSet>,
    nextId: CallId,
    stored: seq<Mutation>,
    returned: map<CallId, bool>,
    loads: seq<(CallbackSet, nat)>,
    seals: nat)

  datatype State = State(g: Globals, threads: map<Tid, Pc>)

  datatype Outcome = Blocked | Next(g: Globals, pc: Pc) | Done(g: Globals)

  datatype Action = Register(field: Field, fn: FnPtr) | Seal | Read | Advance

  const START := State(Globals(None, false, None, 0, [], map[], [], 0), map[])

  /** loadCallbacks: the published set, or the empty one before any registration. */
  function Loaded(g: Globals): CallbackSet {
    if g.published.Some? then g.published.value else EMPTY
  }

  function Step(g: Globals, t: Tid, pc: Pc): Outcome {
    match pc
    case SetLock(m) => if g.mu.Some? then Blocked else Next(g.(mu := Some(t)), SetCheck(m))
    case SetCheck(m) => if g.sealed then Next(g, SetUnlock(m, false)) else Next(g, SetLoad(m))
    case SetLoad(m) => Next(g, SetStore(m, Mutate(Loaded(g), m)))
    case SetStore(m, next) =>
      Next(g.(published := Some(next), stored := g.stored + [m]), SetUnlock(m, true))
    case SetUnlock(m, applied) => Done(g.(mu := None, returned := g.returned[m.id := applied]))
    case SealLock => if g.mu.Some? then Blocked else Next(g.(mu := Some(t)), SealStore)
    case SealStore => Next(g.(sealed := true), SealUnlock)
    case SealUnlock => Done(g.(mu := None, seals := g.seals + 1))
    case Load => Done(g.(loads := g.loads + [(Loaded(g), |g.stored|)]))
  }

  function Apply(s: State, t: Tid, a: Action): Option<State> {
    if a.Advance? then
      if t !in s.threads then None
      else
        match Step(s.g, t, s.threads[t])
        case Blocked => None
        case Next(g, pc) => Some(State(g, s.threads[t := pc]))
        case Done(g) => Some(State(g, s.threads - {t}))
    else if t in s.threads then None
    else
      match a
      case Register(field, fn) =>
        Some(State(s.g.(nextId := s.g.nextId + 1), s.threads[t := SetLock(Mutation(s.g.nextId, field, fn))]))
      case Seal => Some(State(s.g, s.threads[t := SealLock]))
      case _ => Some(State(s.g, s.threads[t := Load]))
  }

  /** Thread and action of one step of a schedule. */
  function Act(s: State, step: (Tid, Action)): Option<State> {
    Apply(s, step.0, step.1)
  }

  type Schedule = seq<(Tid, Action)>
  function Execute(sched: Schedule): Option<State> {
    Schedules.Run(START, Act, sched)
  }

  // -- The invariant -------------------------------------------------------------

  predicate InLock(pc: Pc) {
    pc.SetCheck? || pc.SetLoad? || pc.SetStore? || pc.SetUnlock? || pc.SealStore? || pc.SealUnlock?
  }

  predicate IsSetter(pc: Pc) {
    pc.SetLock? || pc.SetCheck? || pc.SetLoad? || pc.SetStore? || pc.SetUnlock?
  }

  /** The call numbered id has stored its mutation. */
  ghost predicate Stored(g: Globals, id: CallId) {
    exists i :: 0 <= i < |g.stored| && g.stored[i].id == id
  }

  ghost predicate PcInv(g: Globals, pc: Pc) {
    && (IsSetter(pc) ==> pc.m.id < g.nextId && pc.m.id !in g.returned)
    && (pc.SetLoad? || pc.SetStore? ==> !g.sealed)
    && (pc.SealUnlock? ==> g.sealed)
    && (pc.SetStore? ==> pc.next == Mutate(Loaded(g), pc.m))
    && (pc.SetLock? || pc.SetCheck? || pc.SetLoad? || pc.SetStore? ==> !Stored(g, pc.m.id))
    && (pc.SetUnlock? ==> (pc.applied <==> Stored(g, pc.m.id)))
  }

  ghost predicate GlobalInv(g: Globals) {
    && Loaded(g) == Fold(g.stored)
    && (g.seals > 0 ==> g.sealed)
    && (forall i :: 0 <= i < |g.stored| ==> g.stored[i].id < g.nextId)
    && (forall i, j :: 0 <= i < j < |g.stored| ==> g.stored[i].id != g.stored[j].id)
    && (forall id :: id in g.returned ==> id < g.nextId)
    && (forall id :: id in g.returned ==> (g.returned[id] <==> Stored(g, id)))
    && (forall i :: 0 <= i < |g.loads| ==>
          g.loads[i].1 <= |g.stored| && g.loads[i].0 == Fold(g.stored[..g.loads[i].1]))
  }

  ghost predicate Inv(s: State) {
    && GlobalInv(s.g)
    && (forall t :: t in s.threads ==> PcInv(s.g, s.threads[t]))
    && (forall t :: t in s.threads ==> (InLock(s.threads[t]) <==> s.g.mu == Some(t)))
    && (s.g.mu.Some? ==> s.g.mu.value in s.threads)
    && (forall t, u | t in s.threads && u in s.threads && IsSetter(s.threads[t]) && IsSetter(s.threads[u])
          :: s.threads[t].m.id == s.threads[u].m.id ==> t == u)
  }

  /** Storing appends a mutation of a call that had none, and keeps every earlier prefix. */
  lemma StoreKeepsGlobals(g: Globals, m: Mutation)
    requires GlobalInv(g) && m.id < g.nextId && m.id !in g.returned && !Stored(g, m.id)
    ensures var g2 := g.(published := Some(Mutate(Loaded(g), m)), stored := g.stored + [m]);
            GlobalInv(g2) && forall id :: Stored(g2, id) <==> Stored(g, id) || id == m.id
  {
    var g2 := g.(published := Some(Mutate(Loaded(g), m)), stored := g.stored + [m]);
    assert g2.stored[..|g2.stored| - 1] == g.stored;
    assert g2.stored[|g.stored|] == m;
    assert forall i :: 0 <= i < |g.stored| ==> g2.stored[i] == g.stored[i];
    assert forall id :: Stored(g2, id) <==> Stored(g, id) || id == m.id;
    forall i | 0 <= i < |g2.loads| ensures g2.loads[i].0 == Fold(g2.stored[..g2.loads[i].1]) {
      assert g2.stored[..g2.loads[i].1] == g.stored[..g2.loads[i].1];
    }
  }

  /** The steps that store nothing. */
  lemma QuietStepKeepsGlobals(g: Globals, t: Tid, pc: Pc)
    requires GlobalInv(g) && PcInv(g, pc) && !pc.SetStore? && !pc.Load?
    ensures !Step(g, t, pc).Blocked? ==> GlobalInv(Step(g, t, pc).g)
  {
    if !Step(g, t, pc).Blocked? {
      var g2 := Step(g, t, pc).g;
      assert g2.stored == g.stored && g2.loads == g.loads;
      assert forall id :: Stored(g2, id) <==> Stored(g, id);
    }
  }

  lemma StepKeepsGlobals(g: Globals, t: Tid, pc: Pc)
    requires GlobalInv(g) && PcInv(g, pc)
    ensures !Step(g, t, pc).Blocked? ==> GlobalInv(Step(g, t, pc).g)
  {
    match pc
    case SetStore(m, _) => StoreKeepsGlobals(g, m);
    case Load =>
      assert g.stored[..|g.stored|] == g.stored;
    case _ => QuietStepKeepsGlobals(g, t, pc);
  }

  lemma StepKeepsPcs(g: Globals, t: Tid, pc: Pc, other: Pc)
    requires GlobalInv(g) && PcInv(g, pc) && PcInv(g, other)
    requires IsSetter(pc) && IsSetter(other) ==> pc.m.id != other.m.id
    requires !(InLock(other) && (InLock(pc) || g.mu.None?))
    ensures !Step(g, t, pc).Blocked? ==> PcInv(Step(g, t, pc).g, other)
  {
    if !Step(g, t, pc).Blocked? {
      var g2 := Step(g, t, pc).g;
      if pc.SetStore? {
        StoreKeepsGlobals(g, pc.m);
      } else {
        assert forall id :: Stored(g2, id) <==> Stored(g, id);
      }
    }
  }

  lemma StepKeepsOwn(g: Globals, t: Tid, pc: Pc)
    requires GlobalInv(g) && PcInv(g, pc) && (InLock(pc) <==> g.mu == Some(t))
    ensures match Step(g, t, pc)
            case Blocked => true
            case Next(g2, pc2) =>
              PcInv(g2, pc2) && (InLock(pc2) <==> g2.mu == Some(t))
              && (IsSetter(pc) <==> IsSetter(pc2)) && (IsSetter(pc) ==> pc2.m == pc.m)
              && (g2.mu == g.mu || (g.mu == None && g2.mu == Some(t)))
            case Done(g2) => g2.mu == if InLock(pc) then None else g.mu
  {
    match Step(g, t, pc)
    case Next(g2, _) =>
      if pc.SetStore? {
        StoreKeepsGlobals(g, pc.m);
      } else {
        assert forall id :: Stored(g2, id) <==> Stored(g, id);
      }
    case _ =>
  }

  lemma AdvanceKeepsInv(s: State, t: Tid)
    requires Inv(s) && Apply(s, t, Advance).Some?
    ensures Inv(Apply(s, t, Advance).value)
  {
    var s2 := Apply(s, t, Advance).value;
    StepKeepsGlobals(s.g, t, s.threads[t]);
    StepKeepsOwn(s.g, t, s.threads[t]);
    forall u | u in s2.threads && u != t ensures PcInv(s2.g, s2.threads[u]) {
      StepKeepsPcs(s.g, t, s.threads[t], s.threads[u]);
    }
  }

  lemma StartKeepsInv(s: State, t: Tid, a: Action)
    requires Inv(s) && !a.Advance? && Apply(s, t, a).Some?
    ensures Inv(Apply(s, t, a).value)
  {
    var s2 := Apply(s, t, a).value;
    assert forall id :: Stored(s2.g, id) <==> Stored(s.g, id);
    assert GlobalInv(s2.g);
    forall u | u in s2.threads ensures PcInv(s2.g, s2.threads[u]) {
      if u != t { assert PcInv(s.g, s.threads[u]); }
    }
  }

  lemma {:induction false} EveryScheduleKeepsInv(sched: Schedule)
    requires Execute(sched).Some?
    ensures Inv(Execute(sched).value)
  {
    if sched != [] {
      var prefix, last := sched[..|sched| - 1], sched[|sched| - 1];
      EveryScheduleKeepsInv(prefix);
      if last.1.Advance? {
        AdvanceKeepsInv(Execute(prefix).value, last.0);
      } else {
        StartKeepsInv(Execute(prefix).value, last.0, last.1);
      }
    }
  }

  // -- What follows -----------------------------------------------------------------

  /** The published set is the fold, in lock order, of the stored mutations, no two from the
      same call; a setter that has returned stored its mutation exactly when it returned
      true; and every load saw the fold of the stores made before it. */
  lemma PublishedIsTheFoldOfAppliedMutations(sched: Schedule)
    requires Execute(sched).Some?
    ensures var g := Execute(sched).value.g;
            && Loaded(g) == Fold(g.stored)
            && (forall i, j :: 0 <= i < j < |g.stored| ==> g.stored[i].id != g.stored[j].id)
            && (forall id :: id in g.returned ==> (g.returned[id] <==> Stored(g, id)))
            && (forall i :: 0 <= i < |g.loads| ==>
                  g.loads[i].1 <= |g.stored| && g.loads[i].0 == Fold(g.stored[..g.loads[i].1]))
  {
    EveryScheduleKeepsInv(sched);
  }

  /** The pointer of the last mutation of a field, null when there is none. */
  function LastFn(ms: seq<Mutation>, field: Field): FnPtr {
    if ms == [] then 0
    else if ms[|ms| - 1].field == field then ms[|ms| - 1].fn
    else LastFn(ms[..|ms| - 1], field)
  }

  /** Each of the six pointers is that of the last mutation of its own field. */
  predicate HoldsTheLast(s: CallbackSet, ms: seq<Mutation>) {
    && s.process == LastFn(ms, Process)
    && s.deadLetter == LastFn(ms, DeadLetter)
    && s.metrics == LastFn(ms, Metrics)
    && s.shutdown == LastFn(ms, Shutdown)
    && s.log == LastFn(ms, Log)
    && s.bandwidth == LastFn(ms, Bandwidth)
  }

  lemma {:induction false} FoldHoldsTheLast(ms: seq<Mutation>)
    ensures HoldsTheLast(Fold(ms), ms)
  {
    if ms != [] { FoldHoldsTheLast(ms[..|ms| - 1]); }
  }

  /** No registration is lost and none touches another's field: in every state of every schedule
      each field of the published set is the pointer last stored for that field, null when none
      was, and every load saw the same of the stores before it. */
  lemma NoRegistrationIsLost(sched: Schedule)
    requires Execute(sched).Some?
    ensures var g := Execute(sched).value.g;
            && HoldsTheLast(Loaded(g), g.stored)
            && (forall i :: 0 <= i < |g.loads| ==>
                  g.loads[i].1 <= |g.stored| && HoldsTheLast(g.loads[i].0, g.stored[..g.loads[i].1]))
  {
    EveryScheduleKeepsInv(sched);
    var g := Execute(sched).value.g;
    FoldHoldsTheLast(g.stored);
    forall i | 0 <= i < |g.loads| ensures HoldsTheLast(g.loads[i].0, g.stored[..g.loads[i].1]) {
      FoldHoldsTheLast(g.stored[..g.loads[i].1]);
    }
  }

  /** The registrations a schedule asks for, in the order of the calls. */
  function Asked(sched: Schedule): seq<(Field, FnPtr)> {
    if sched == [] then []
    else
      match sched[|sched| - 1].1
      case Register(field, fn) => Asked(sched[..|sched| - 1]) + [(field, fn)]
      case _ => Asked(sched[..|sched| - 1])
  }

  /** The mutation is what its call asked for. */
  predicate IsAsked(m: Mutation, asked: seq<(Field, FnPtr)>) {
    m.id < |asked| && asked[m.id] == (m.field, m.fn)
  }

  ghost predicate AllAsked(s: State, asked: seq<(Field, FnPtr)>) {
    && s.g.nextId == |asked|
    && (forall i :: 0 <= i < |s.g.stored| ==> IsAsked(s.g.stored[i], asked))
    && (forall t :: t in s.threads && IsSetter(s.threads[t]) ==> IsAsked(s.threads[t].m, asked))
  }

  lemma StepKeepsAsked(s: State, t: Tid, a: Action, asked: seq<(Field, FnPtr)>)
    requires AllAsked(s, asked) && Apply(s, t, a).Some?
    ensures AllAsked(Apply(s, t, a).value, if a.Register? then asked + [(a.field, a.fn)] else asked)
  {
  }

  /** Every stored mutation has the field and the pointer its own call was given. */
  lemma {:induction false} StoredIsWhatWasAsked(sched: Schedule)
    requires Execute(sched).Some?
    ensures AllAsked(Execute(sched).value, Asked(sched))
  {
    if sched != [] {
      var prefix, last := sched[..|sched| - 1], sched[|sched| - 1];
      StoredIsWhatWasAsked(prefix);
      StepKeepsAsked(Execute(prefix).value, last.0, last.1, Asked(prefix));
    }
  }

  /** When no setter is in progress, the stored mutations are exactly those of the calls that
      returned true. */
  lemma QuiescentSetIsWhatReturnedTrue(sched: Schedule, i: nat)
    requires Execute(sched).Some? && i < |Execute(sched).value.g.stored|
    requires forall t :: t in Execute(sched).value.threads ==> !IsSetter(Execute(sched).value.threads[t])
    ensures var g := Execute(sched).value.g;
            g.stored[i].id in g.returned && g.returned[g.stored[i].id]
  {
    EveryScheduleKeepsInv(sched);
    EveryCallIsAccountedFor(sched, Execute(sched).value.g.stored[i].id);
    assert Stored(Execute(sched).value.g, Execute(sched).value.g.stored[i].id);
  }

  /** A call that was started is in progress or has returned. */
  lemma {:induction false} EveryCallIsAccountedFor(sched: Schedule, id: CallId)
    requires Execute(sched).Some? && id < Execute(sched).value.g.nextId
    ensures var s := Execute(sched).value;
            id in s.g.returned
            || exists t :: t in s.threads && IsSetter(s.threads[t]) && s.threads[t].m.id == id
  {
    var prefix, last := sched[..|sched| - 1], sched[|sched| - 1];
    var s, s2 := Execute(prefix).value, Execute(sched).value;
    var t := last.0;
    if id < s.g.nextId {
      EveryCallIsAccountedFor(prefix, id);
      if id !in s.g.returned {
        var u :| u in s.threads && IsSetter(s.threads[u]) && s.threads[u].m.id == id;
        assert u != t ==> u in s2.threads && s2.threads[u] == s.threads[u];
        if u == t && !Step(s.g, t, s.threads[t]).Done? {
          assert IsSetter(s2.threads[t]) && s2.threads[t].m.id == id;
        }
      }
    } else {
      assert IsSetter(s2.threads[t]) && s2.threads[t].m.id == id;
    }
  }

  /** A load returns the set that is published at that moment, with every store made so far. */
  lemma LoadsSeeTheCurrentSet(s: State, t: Tid)
    requires t in s.threads && s.threads[t].Load?
    ensures var o := Apply(s, t, Advance);
            && o.Some? && t !in o.value.threads
            && o.value.g == s.g.(loads := s.g.loads + [(Loaded(s.g), |s.g.stored|)])
  {
  }

  /** Once a seal has returned, the registrations are sealed. */
  lemma SealsTakeEffect(sched: Schedule)
    requires Execute(sched).Some? && Execute(sched).value.g.seals > 0
    ensures Execute(sched).value.g.sealed
  {
    EveryScheduleKeepsInv(sched);
  }

  /** Once sealed, no step changes the set or the stored mutations, and no setter that has yet
      to check the seal will return true. */
  lemma SealIsFinal(sched: Schedule, t: Tid, a: Action)
    requires Execute(sched).Some? && Execute(sched).value.g.sealed
    requires Apply(Execute(sched).value, t, a).Some?
    ensures var g, g2 := Execute(sched).value.g, Apply(Execute(sched).value, t, a).value.g;
            g2.sealed && g2.published == g.published && g2.stored == g.stored
  {
    EveryScheduleKeepsInv(sched);
  }
}
