/**
 How long a headset that has fallen silent keeps its battery, when the bridge polls at the pace it
 sets itself: the delay to the next poll depends on what the last one left unanswered.
 */
module BridgePace {
  import opened Prelude
  import opened Headsets
  import opened Policy
  import opened BridgeStates
  import opened BridgeInvariants
  import opened BridgeRuns
  import opened BridgeClocks

  /** Whether the last poll of a run left a battery unanswered; the waits since it do not matter. */
  ghost predicate Unanswered(inherited: seq<Handle>, turns: seq<Turn>, config: Config)
    requires Timely(turns)
  {
    if turns == [] then
      false
    else
      TimelyBefore(turns);
      if turns[|turns| - 1].Ticked? then
        AnySilent(Run(inherited, turns, config).states)
      else
        Unanswered(inherited, turns[..|turns| - 1], config)
  }

  /** A poll at `now` comes no later after the last one than the bridge lets it. */
  ghost predicate IsPaced(inherited: seq<Handle>, turns: seq<Turn>, now: nat, native: bool, config: Config)
    requires Timely(turns)
  {
    var polls := Polls(turns);
    polls != [] ==> now <= polls[|polls| - 1].now + NextDelay(Unanswered(inherited, turns, config), native, config)
  }

  /** A battery that is silent now was silent after the last poll. */
  lemma {:induction false} SilenceIsOld(inherited: seq<Handle>, turns: seq<Turn>, config: Config)
    requires Timely(turns) && AnySilent(Run(inherited, turns, config).states)
    ensures Unanswered(inherited, turns, config)
    decreases |turns|
  {
    if turns == [] {
      assert false;
    } else {
      TimelyBefore(turns);
      var n := |turns| - 1;
      if turns[n].Waited? {
        var before := Run(inherited, turns[..n], config);
        WaitTouchesNoClock(before, turns[n].serve, 0);
        var b :| b in Run(inherited, turns, config).states && b.silentSince.Some?;
        var was :| was in before.states && SameClocks(b, was);
        SilenceIsOld(inherited, turns[..n], config);
      }
    }
  }

  /** A headset that last answered before poll `i`, and has been listed on each poll since. */
  ghost predicate IsSilentFrom(polls: seq<Poll>, key: HeadsetKey, i: nat) {
    && RunStarts(polls, key, Answering, i)
    && forall j :: i <= j < |polls| ==> Fine(polls[j].visits, key, Listing)
  }

  /**
   Over every run at the bridge's own pace, a headset that has fallen silent while it is listed
   keeps its battery through the offline grace, and goes by the first poll after it - which comes
   within the delay of an unanswered poll, three seconds at most.
   */
  lemma {:induction false} SilenceEndsInTime(
    inherited: seq<Handle>, turns: seq<Turn>, visits: seq<Visit>, now: nat, native: bool, config: Config,
    b: VirtualBattery, i: nat)
    requires Timely(turns) && Clock(turns) < now && IsPaced(inherited, turns, now, native, config)
    requires var before := Run(inherited, turns, config);
      b in Judged(before, visits, now) && IsSilentFrom(Polls(turns) + [Poll(visits, now)], b.key, i)
    ensures var before, polls := Run(inherited, turns, config), Polls(turns) + [Poll(visits, now)];
      && (b !in before.Tick(visits, now, config).states <==> now - polls[i].now > config.offlineGrace)
      && now - polls[i].now <= config.offlineGrace + NextDelay(true, native, config)
  {
    var before, polls := Run(inherited, turns, config), Polls(turns) + [Poll(visits, now)];
    WithdrawnExactly(inherited, turns, visits, now, config);
    ListedHasNoClock(b, polls, i);
    if i < |Polls(turns)| {
      WasSilent(inherited, turns, visits, now, config, b, i);
    }
  }

  /** Of a listed headset the clock of the silence runs, and that of the absence does not. */
  lemma {:induction false} ListedHasNoClock(b: VirtualBattery, polls: seq<Poll>, i: nat)
    requires Clocked(b, polls) && IsSilentFrom(polls, b.key, i)
    ensures b.silentSince == Some(polls[i].now) && b.missingSince == None
  {
    RunsStartOnce(polls, b.key, Answering, i, b.silentSince);
    assert Fine(polls[|polls| - 1].visits, b.key, Listing);
  }

  /** It was silent after the poll before, and its offline grace was not over then. */
  lemma {:induction false} WasSilent(
    inherited: seq<Handle>, turns: seq<Turn>, visits: seq<Visit>, now: nat, config: Config,
    b: VirtualBattery, i: nat)
    requires Timely(turns) && Clock(turns) < now && i < |Polls(turns)|
    requires var before := Run(inherited, turns, config);
      b in Judged(before, visits, now) && IsSilentFrom(Polls(turns) + [Poll(visits, now)], b.key, i)
    ensures Unanswered(inherited, turns, config)
    ensures var polls := Polls(turns); polls[|polls| - 1].now - polls[i].now <= config.offlineGrace
  {
    var polls := Polls(turns);
    var more := polls + [Poll(visits, now)];
    assert more[|polls|] == Poll(visits, now) && !Fine(more[|polls|].visits, b.key, Answering);
    var was := StillClocked(inherited, turns, visits, now, config, b);
    SilentBefore(polls, Poll(visits, now), b.key, i);
    ListedHasNoClock(was, polls, i);
    SilenceIsOld(inherited, turns, config);
  }

  /** The battery as the run left it, with its clocks right and its grace not over. */
  lemma {:induction false} StillClocked(
    inherited: seq<Handle>, turns: seq<Turn>, visits: seq<Visit>, now: nat, config: Config, b: VirtualBattery)
    returns (was: VirtualBattery)
    requires Timely(turns) && Clock(turns) < now
    requires b in Judged(Run(inherited, turns, config), visits, now) && !Fine(visits, b.key, Answering)
    ensures was in Run(inherited, turns, config).states && was.key == b.key
    ensures Clocked(was, Polls(turns)) && WithinGrace(was, Polls(turns)[|Polls(turns)| - 1].now, config)
  {
    GraceClocksAreRight(inherited, turns, config);
    PollsAreTimely(turns);
    was := StillSilent(Run(inherited, turns, config), visits, now, b);
  }

  /** A headset that does not answer on a poll has its battery, and its clock, from before. */
  lemma {:induction false} StillSilent(
    before: BridgeState, visits: seq<Visit>, now: nat, b: VirtualBattery) returns (was: VirtualBattery)
    requires Inv(before) && forall b <- before.states :: b.lastReading < now && b.lastSeen < now
    requires b in Judged(before, visits, now) && !Fine(visits, b.key, Answering)
    ensures was in before.states && was.key == b.key && (was.silentSince.Some? ==> b.silentSince == was.silentSince)
  {
    ConsiderAllTracks(before, visits, now);
    var considered := JudgedIsNoted(before, visits, now, b);
    was :| was in before.states && was.key == b.key && was.silentSince == considered.silentSince;
  }

  lemma {:induction false} SilentBefore(polls: seq<Poll>, poll: Poll, key: HeadsetKey, i: nat)
    requires IsSilentFrom(polls + [poll], key, i) && i < |polls|
    ensures IsSilentFrom(polls, key, i)
  {
    var more := polls + [poll];
    assert forall j :: 0 <= j < |polls| ==> more[j] == polls[j];
  }

  /** A poll leaves a battery unanswered exactly if one that is left belongs to a headset that did not answer it. */
  lemma {:induction false} UnansweredExactly(
    inherited: seq<Handle>, turns: seq<Turn>, visits: seq<Visit>, now: nat, config: Config)
    requires Timely(turns) && Clock(turns) < now
    ensures var states := Run(inherited, turns, config).Tick(visits, now, config).states;
      AnySilent(states) <==> exists b <- states :: !Fine(visits, b.key, Answering)
  {
    var before, polls := Run(inherited, turns, config), Polls(turns);
    GraceClocksAreRight(inherited, turns, config);
    PollsAreTimely(turns);
    TickKeepsClocksRight(before, polls, Poll(visits, now), config);
    var more := polls + [Poll(visits, now)];
    assert more[|polls|] == Poll(visits, now);
    forall b <- before.Tick(visits, now, config).states
      ensures b.silentSince.Some? <==> !Fine(visits, b.key, Answering)
    {
      assert ClockIsRight(b.silentSince, more, b.key, Answering);
    }
  }
}
