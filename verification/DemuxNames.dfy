/** The engine's settings by the names of the document's demux members: which input the bridge reads
    under each. */
module DemuxNames {
  import opened Common
  import opened Text
  import opened Json
  import opened ConfigJson
  import BridgeConfig

  function Lookup(ms: Members, name: string): Option<Json> {
    match ms
    case NoMore => None
    case Member(key, value, rest) => if key == name then Some(value) else Lookup(rest, name)
  }

  predicate NamesDiffer(settings: seq<Setting>) {
    forall i, j :: 0 <= i < j < |settings| ==> settings[i].name != settings[j].name
  }

  lemma {:induction false} AbsentNames(settings: seq<Setting>, name: string)
    requires forall i :: 0 <= i < |settings| ==> settings[i].name != name
    ensures Lookup(Present(settings), name) == None
  {
    if settings != [] { AbsentNames(settings[1..], name); }
  }

  /** A setting is looked up under its name: its value when it is set, nothing otherwise. */
  lemma {:induction false} PresentIsFound(settings: seq<Setting>, i: nat)
    requires NamesDiffer(settings) && i < |settings|
    ensures Lookup(Present(settings), settings[i].name) == settings[i].value
  {
    if i == 0 {
      AbsentNames(settings[1..], settings[0].name);
    } else {
      PresentIsFound(settings[1..], i - 1);
      assert settings[0].name != settings[i].name;
    }
  }

  /** Length and first character of the names, in order. */
  const OUTLINES: seq<(nat, char)> := [
    (14, 'c'), (15, 'p'), (22, 'c'), (23, 'c'), (17, 'w'), (11, 'p'), (18, 'a'),
    (12, 'd'), (23, 'a'), (12, 'q'), (34, 'a'), (28, 'r'), (25, 'a')]

  lemma OutlinesDiffer(i: nat, j: nat)
    requires i < j < 13
    ensures OUTLINES[i] != OUTLINES[j]
  {
  }

  predicate HasOutline(s: Setting, i: nat)
    requires i < 13
  {
    |s.name| == OUTLINES[i].0 && OUTLINES[i].0 > 0 && s.name[0] == OUTLINES[i].1
  }

  lemma IntOutlines(d: DemuxConfig, i: nat)
    requires i < 5
    ensures HasOutline(IntSettings(d)[i], i)
  {
  }

  lemma TimingOutlines(d: DemuxConfig, i: nat)
    requires i < 5
    ensures HasOutline(TimingSettings(d)[i], 5 + i)
  {
  }

  lemma GuardOutlines(d: DemuxConfig, i: nat)
    requires i < 3
    ensures HasOutline(GuardSettings(d)[i], 10 + i)
  {
  }

  lemma SettingOutlines(d: DemuxConfig, i: nat)
    requires i < 13
    ensures |DemuxSettings(d)| == 13 && HasOutline(DemuxSettings(d)[i], i)
  {
    if i < 5 {
      IntOutlines(d, i);
    } else if i < 10 {
      TimingOutlines(d, i - 5);
    } else {
      GuardOutlines(d, i - 10);
    }
  }

  lemma DemuxNamesDiffer(d: DemuxConfig)
    ensures NamesDiffer(DemuxSettings(d)) && |DemuxSettings(d)| == 13
  {
    SettingOutlines(d, 0);
    forall i, j | 0 <= i < j < 13 ensures DemuxSettings(d)[i].name != DemuxSettings(d)[j].name {
      SettingOutlines(d, i);
      SettingOutlines(d, j);
      OutlinesDiffer(i, j);
    }
  }

  /** Every setting is found under its name. */
  ghost predicate HoldsSettings(ms: Members, d: DemuxConfig) {
    && (forall i :: 0 <= i < 5 ==> Lookup(ms, IntSettings(d)[i].name) == IntSettings(d)[i].value)
    && (forall i :: 0 <= i < 5 ==> Lookup(ms, TimingSettings(d)[i].name) == TimingSettings(d)[i].value)
    && (forall i :: 0 <= i < 3 ==> Lookup(ms, GuardSettings(d)[i].name) == GuardSettings(d)[i].value)
  }

  /** The demux members the bridge reads. */
  lemma DemuxIsRead(c: Inputs)
    ensures HoldsSettings(BridgeConfig.Meant(c).demux, c.demux)
  {
    DemuxNamesDiffer(c.demux);
    var all := DemuxSettings(c.demux);
    forall i | 0 <= i < 13 ensures Lookup(Present(all), all[i].name) == all[i].value { PresentIsFound(all, i); }
    assert forall i :: 0 <= i < 5 ==> IntSettings(c.demux)[i] == all[i];
    assert forall i :: 0 <= i < 5 ==> TimingSettings(c.demux)[i] == all[5 + i];
    assert forall i :: 0 <= i < 3 ==> GuardSettings(c.demux)[i] == all[10 + i];
  }

  /** The member holds the number, and there is none without one. */
  predicate HoldsCount(ms: Members, name: string, v: Option<nat>) {
    Lookup(ms, name) == if v.Some? then Some(Num(v.value)) else None
  }

  /** The member holds the milliseconds as a duration text. */
  predicate HoldsMillis(ms: Members, name: string, v: Option<nat>) {
    Lookup(ms, name) == if v.Some? then Some(Str(Decimal(v.value) + "ms")) else None
  }

  /** The counts, each under its own name. */
  lemma CountsByName(ms: Members, d: DemuxConfig)
    requires HoldsSettings(ms, d)
    ensures
      && HoldsCount(ms, "concurrentKeys", d.concurrentKeys)
      && HoldsCount(ms, "perKeyBufferLen", d.perKeyBufferLen)
      && HoldsCount(ms, "commitIngestChannelLen", d.commitIngestChannelLen)
      && HoldsCount(ms, "commitPartitionSliceLen", d.commitPartitionSliceLen)
      && HoldsCount(ms, "workerShardsCount", d.workerShardsCount)
  {
    assert IntSettings(d)[0].name == "concurrentKeys";
    assert IntSettings(d)[1].name == "perKeyBufferLen";
    assert IntSettings(d)[2].name == "commitIngestChannelLen";
    assert IntSettings(d)[3].name == "commitPartitionSliceLen";
    assert IntSettings(d)[4].name == "workerShardsCount";
  }

  /** The durations, each under its own name. */
  lemma TimingsByName(ms: Members, d: DemuxConfig)
    requires HoldsSettings(ms, d)
    ensures
      && HoldsMillis(ms, "pollTimeout", d.pollTimeout)
      && HoldsMillis(ms, "autoCommitInterval", d.autoCommitInterval)
      && HoldsMillis(ms, "drainTimeout", d.drainTimeout)
      && HoldsMillis(ms, "awaitAssignmentsTimeout", d.awaitAssignmentsTimeout)
      && HoldsMillis(ms, "queryTimeout", d.queryTimeout)
  {
    assert TimingSettings(d)[0].name == "pollTimeout";
    assert TimingSettings(d)[1].name == "autoCommitInterval";
    assert TimingSettings(d)[2].name == "drainTimeout";
    assert TimingSettings(d)[3].name == "awaitAssignmentsTimeout";
    assert TimingSettings(d)[4].name == "queryTimeout";
  }

  /** And the others. */
  lemma GuardsByName(ms: Members, d: DemuxConfig)
    requires HoldsSettings(ms, d)
    ensures
      && HoldsMillis(ms, "acquireWorkerTimeoutCircuitBreaker", d.acquireWorkerTimeoutCircuitBreaker)
      && HoldsMillis(ms, "rebalancePausePollingTimeout", d.rebalancePausePollingTimeout)
      && HoldsMillis(ms, "acquireCommitGuardTimeout", d.acquireCommitGuardTimeout)
  {
    assert GuardSettings(d)[0].name == "acquireWorkerTimeoutCircuitBreaker";
    assert GuardSettings(d)[1].name == "rebalancePausePollingTimeout";
    assert GuardSettings(d)[2].name == "acquireCommitGuardTimeout";
  }
}
