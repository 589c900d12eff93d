/**
 The reader and the bridge together: what has to have come from the dongle for the level shown
 to move far, over every run of the daemon on the native reader.
 */
module Daemon {
  import opened Prelude
  import opened Headsets
  import opened Policy
  import opened BridgeStates
  import opened BridgeInvariants
  import Readers
  import opened ReaderRuns
  import opened Lives

  // ----- What the trace owes to the log of levels received -----

  /** A reading that was received as a battery message of the product, under its number. */
  ghost predicate Received(e: Event, evidence: Evidence) {
    e.Read? && e.sample.Some? && evidence.Shows(e.sample.value, e.reading.percent, e.key.productId)
  }

  ghost predicate Genuine(trace: seq<Event>, evidence: Evidence) {
    forall e <- trace :: e.Read? ==> Received(e, evidence)
  }

  lemma GenuineInMore(trace: seq<Event>, evidence: Evidence, more: Evidence)
    requires Genuine(trace, evidence) && evidence.Within(more)
    ensures Genuine(trace, more)
  {
  }

  lemma TickIsGenuine(s: BridgeState, visits: seq<Visit>, now: nat, config: Config, evidence: Evidence)
    requires s.Aligned() && Genuine(s.trace, evidence) && forall v <- visits :: FromLog(v.headset, evidence)
    ensures Genuine(s.Tick(visits, now, config).trace, evidence)
  {
    ConsiderAllReads(s, visits, now);
    forall e <- s.ConsiderAll(visits, now).trace | e !in s.trace && e.Read?
      ensures Received(e, evidence)
    {
      var v :| 0 <= v < |visits| && Says(visits[v].headset, e);
      assert visits[v] in visits;
    }
  }

  lemma WaitIsGenuine(s: BridgeState, serve: Serving, n: nat, evidence: Evidence)
    requires s.Aligned() && NamesLiveDevices(serve) && Genuine(s.trace, evidence)
    ensures Genuine(s.Wait(serve, n).trace, evidence)
  {
    WaitReadsNothing(s, serve, n);
  }

  // ----- Runs of the daemon -----

  /** A poll of the native reader, mirrored by the bridge; or the bridge serving its devices. */
  datatype Turn =
    | Polled(poll: Poll, kernel: seq<Io>)
    | Served(serve: Serving)

  datatype State = State(reader: Readers.ReaderState, bridge: BridgeState)

  function Visits(headsets: seq<Headset>, kernel: seq<Io>): seq<Visit>
    requires |headsets| == |kernel|
  {
    seq(|headsets|, i requires 0 <= i < |headsets| => Visit(headsets[i], kernel[i]))
  }

  ghost predicate Steps(before: State, turn: Turn, after: State, config: Config) {
    match turn
    case Polled(poll, kernel) =>
      && before.bridge.Aligned() && |poll.ios| == |poll.dongles| == |kernel|
      && exists headsets: seq<Headset> :: MirrorsPoll(before, poll, kernel, headsets, after, config)
    case Served(serve) =>
      && before.bridge.Aligned() && NamesLiveDevices(serve)
      && after == State(before.reader, before.bridge.Wait(serve, 0))
  }

  ghost predicate MirrorsPoll(
    before: State, poll: Poll, kernel: seq<Io>, headsets: seq<Headset>, after: State, config: Config)
    requires before.bridge.Aligned() && |poll.ios| == |poll.dongles|
  {
    && |headsets| == |kernel|
    && Readers.Reconciles(before.reader, poll.dongles, poll.pass, poll.ios, after.reader, headsets)
    && after.bridge == before.bridge.Tick(Visits(headsets, kernel), poll.pass.now, config)
  }

  ghost predicate IsRun(states: seq<State>, turns: seq<Turn>, config: Config, inherited: seq<Handle>) {
    && |states| == |turns| + 1
    && states[0].reader == INITIAL
    && states[0].bridge == BridgeState([], [], PoolState(inherited, inherited == [], 0), map[], {}, [], 0)
    && forall i :: 0 <= i < |turns| ==> Steps(states[i], turns[i], states[i + 1], config)
  }

  /** The nodes a poll lists are the same dongles as their sessions were opened on. */
  ghost predicate KeepsDongles(before: State, turn: Turn) {
    turn.Polled? ==> SameDongles(before.reader, turn.poll.dongles)
  }

  /** What holds after every turn: of the reader, of the bridge, and of what the one owes the other. */
  ghost predicate Sane(state: State, same: bool) {
    && Inv(state.bridge) && WellVetted(state.bridge) && Sound(state.reader)
    && Genuine(state.bridge.trace, EvidenceOf(state.reader, same))
  }

  lemma StepIsSane(before: State, turn: Turn, after: State, config: Config, same: bool)
    requires Steps(before, turn, after, config) && Sane(before, same) && (same ==> KeepsDongles(before, turn))
    ensures Sane(after, same)
  {
    match turn
    case Polled(poll, kernel) =>
      var headsets: seq<Headset> :| MirrorsPoll(before, poll, kernel, headsets, after, config);
      var evidence := EvidenceOf(after.reader, same);
      PassIsSound(before.reader, poll.dongles, poll.pass, poll.ios, after.reader, headsets, same);
      GenuineInMore(before.bridge.trace, EvidenceOf(before.reader, same), evidence);
      TickKeepsInv(before.bridge, Visits(headsets, kernel), poll.pass.now, config);
      TickIsVetted(before.bridge, Visits(headsets, kernel), poll.pass.now, config);
      TickIsGenuine(before.bridge, Visits(headsets, kernel), poll.pass.now, config, evidence);
    case Served(serve) =>
      WaitKeepsInv(before.bridge, serve, 0);
      WaitIsVetted(before.bridge, serve, 0);
      WaitIsGenuine(before.bridge, serve, 0, EvidenceOf(before.reader, same));
  }

  lemma {:induction false} RunIsSane(
    states: seq<State>, turns: seq<Turn>, config: Config, inherited: seq<Handle>, i: nat, same: bool)
    requires IsRun(states, turns, config, inherited) && i <= |turns|
    requires same ==> forall j :: 0 <= j < i ==> KeepsDongles(states[j], turns[j])
    ensures Sane(states[i], same)
    decreases i
  {
    if i == 0 {
    } else {
      RunIsSane(states, turns, config, inherited, i - 1, same);
      StepIsSane(states[i - 1], turns[i - 1], states[i], config, same);
    }
  }

  /**
   The push rests on two readings in a row of its headset, the second taken in just before it and
   at the level pushed; both were received, as different battery messages.
   */
  ghost predicate RestsOnTwoMessages(trace: seq<Event>, push: Event, first: nat, evidence: Evidence)
    requires push.Pushed?
  {
    && RestsOnTwo(trace, push, first)
    && var second := trace[|trace| - 1];
      Received(trace[first], evidence) && Received(second, evidence) && trace[first].sample.value != second.sample.value
  }

  /**
   Over every run on the native reader, a level pushed more than the plausible step away from
   the one shown is that of a battery message just read, and the reading before it - on the same
   device, with nothing shown in between - was another message that agrees: whatever sessions came
   and went, however often the reader repeated itself, and whatever the kernel did meanwhile. As
   long as the nodes listed stay the same dongles, both are from dongles of the product the level
   is shown for.
   */
  lemma NoJumpRestsOnOneMessage(
    states: seq<State>, turns: seq<Turn>, config: Config, inherited: seq<Handle>, i: nat, same: bool, k: nat)
    requires IsRun(states, turns, config, inherited) && i <= |turns|
    requires same ==> forall j :: 0 <= j < i ==> KeepsDongles(states[j], turns[j])
    requires k < |states[i].bridge.trace| && IsJump(states[i].bridge.trace[k])
    ensures var trace, evidence := states[i].bridge.trace, EvidenceOf(states[i].reader, same);
      exists first: nat :: RestsOnTwoMessages(trace[..k], trace[k], first, evidence)
  {
    RunIsSane(states, turns, config, inherited, i, same);
    var trace := states[i].bridge.trace;
    WellToldBefore(trace, k);
    var first := JumpRestsOnTwo(trace[..k], trace[k]);
    assert trace[first] in trace && trace[k - 1] in trace;
    assert RestsOnTwoMessages(trace[..k], trace[k], first, EvidenceOf(states[i].reader, same));
  }
}
