/**
 Headsets the reader was told are gone, over whole runs of the bridge: since when, and when that is
 believed.
 */
module BridgeGone {
  import opened Prelude
  import opened Headsets
  import opened Policy
  import opened BridgeStates
  import opened BridgeInvariants
  import opened BridgeRuns
  import opened BridgeClocks

  predicate SaysGone(headset: Headset, key: HeadsetKey) {
    headset.Key() == key && headset.supportsBattery && headset.battery.Disconnected?
  }

  ghost predicate Gone(visits: seq<Visit>, key: HeadsetKey) {
    exists v <- visits :: SaysGone(v.headset, key)
  }

  /** The headset answered on some poll from `i` on, before `n`. */
  ghost predicate AnsweredIn(polls: seq<Poll>, key: HeadsetKey, i: nat, n: nat)
    requires n <= |polls|
  {
    exists j: nat :: i <= j < n && Fine(polls[j].visits, key, Answering)
  }

  /** Poll `i` is the first to report the headset gone since it last answered. */
  ghost predicate FirstGone(polls: seq<Poll>, key: HeadsetKey, i: nat) {
    && i < |polls| && Gone(polls[i].visits, key) && !AnsweredIn(polls, key, i + 1, |polls|)
    && forall j: nat :: j < i && Gone(polls[j].visits, key) ==> AnsweredIn(polls, key, j, i + 1)
  }

  /** The clock started on the first poll that reported the headset gone since it last answered. */
  ghost predicate GoneIsRight(since: Option<nat>, polls: seq<Poll>, key: HeadsetKey) {
    match since
    case None => forall j: nat :: j < |polls| && Gone(polls[j].visits, key) ==> AnsweredIn(polls, key, j, |polls|)
    case Some(t) => exists i: nat :: FirstGone(polls, key, i) && polls[i].now == t
  }

  /** The clock of an entry on a poll that has reported `visits` so far. */
  ghost predicate GoneTracks(b: VirtualBattery, states: seq<VirtualBattery>, visits: seq<Visit>, now: nat) {
    if Fine(visits, b.key, Answering) then
      b.goneSince == None || (b.goneSince == Some(now) && Gone(visits, b.key))
    else
      exists was <- states ::
        was.key == b.key && b.goneSince == Note(was.goneSince, was.goneSince.None? && !Gone(visits, b.key), now)
  }

  lemma GoneOfOneMore(visits: seq<Visit>, visit: Visit, key: HeadsetKey)
    ensures Gone(visits + [visit], key) <==> Gone(visits, key) || SaysGone(visit.headset, key)
  {
    if Gone(visits, key) {
      var v :| v in visits && SaysGone(v.headset, key);
      assert v in visits + [visit];
    }
    assert visit in visits + [visit];
  }

  lemma ConsiderTracksGone(s: BridgeState, states: seq<VirtualBattery>, visits: seq<Visit>, visit: Visit, now: nat)
    requires Inv(s) && forall b <- s.states :: GoneTracks(b, states, visits, now)
    ensures forall b <- s.Consider(visit, now).states :: GoneTracks(b, states, visits + [visit], now)
  {
    if visit.headset.supportsBattery {
      ApplyTouchesOne(s, visit.headset, now, visit.io);
    }
    forall b <- s.Consider(visit, now).states
      ensures GoneTracks(b, states, visits + [visit], now)
    {
      FineOfOneMore(visits, visit, b.key, Answering);
      GoneOfOneMore(visits, visit, b.key);
    }
  }

  lemma {:induction false} ConsiderAllTracksGone(s: BridgeState, visits: seq<Visit>, now: nat)
    requires Inv(s)
    ensures forall b <- s.ConsiderAll(visits, now).states :: GoneTracks(b, s.states, visits, now)
    decreases |visits|
  {
    if visits == [] {
    } else {
      var n := |visits| - 1;
      ConsiderAllTracksGone(s, visits[..n], now);
      ConsiderAllKeepsInv(s, visits[..n], now);
      ConsiderTracksGone(s.ConsiderAll(visits[..n], now), s.states, visits[..n], visits[n], now);
      assert visits[..n] + [visits[n]] == visits;
    }
  }

  lemma AnsweredInMore(polls: seq<Poll>, poll: Poll, key: HeadsetKey, i: nat, n: nat)
    requires n <= |polls|
    ensures AnsweredIn(polls + [poll], key, i, n) <==> AnsweredIn(polls, key, i, n)
    ensures n == |polls| && i <= n ==>
      (AnsweredIn(polls + [poll], key, i, n + 1) <==> AnsweredIn(polls, key, i, n) || Fine(poll.visits, key, Answering))
  {
    var all := polls + [poll];
    assert forall j :: 0 <= j < |polls| ==> all[j] == polls[j];
    if n == |polls| && i <= n && Fine(poll.visits, key, Answering) {
      assert Fine(all[n].visits, key, Answering);
    }
  }

  lemma AnsweredIsRight(since: Option<nat>, polls: seq<Poll>, poll: Poll, key: HeadsetKey)
    requires Fine(poll.visits, key, Answering)
    requires since == None || (since == Some(poll.now) && Gone(poll.visits, key))
    ensures GoneIsRight(since, polls + [poll], key)
  {
    var all := polls + [poll];
    assert Fine(all[|polls|].visits, key, Answering);
    if since.Some? {
      assert FirstGone(all, key, |polls|);
    }
  }

  lemma UnansweredIsRight(was: Option<nat>, polls: seq<Poll>, poll: Poll, key: HeadsetKey)
    requires GoneIsRight(was, polls, key) && !Fine(poll.visits, key, Answering)
    ensures GoneIsRight(Note(was, was.None? && !Gone(poll.visits, key), poll.now), polls + [poll], key)
  {
    var all, n := polls + [poll], |polls|;
    forall j: nat | j <= n
      ensures AnsweredIn(all, key, j, n + 1) <==> AnsweredIn(polls, key, j, n)
    {
      AnsweredInMore(polls, poll, key, j, n);
    }
    if was.Some? {
      var i: nat :| FirstGone(polls, key, i) && polls[i].now == was.value;
      forall j: nat | j < i && Gone(all[j].visits, key)
        ensures AnsweredIn(all, key, j, i + 1)
      {
        AnsweredInMore(polls, poll, key, j, i + 1);
      }
      assert FirstGone(all, key, i) && all[i].now == was.value;
    } else if Gone(poll.visits, key) {
      assert FirstGone(all, key, n) && all[n].now == poll.now;
    }
  }

  ghost predicate AllGoneRight(states: seq<VirtualBattery>, polls: seq<Poll>) {
    forall b <- states :: GoneIsRight(b.goneSince, polls, b.key)
  }

  lemma TickKeepsGoneRight(s: BridgeState, polls: seq<Poll>, poll: Poll, config: Config)
    requires Inv(s) && AllGoneRight(s.states, polls)
    ensures AllGoneRight(s.Tick(poll.visits, poll.now, config).states, polls + [poll])
  {
    ConsiderAllTracksGone(s, poll.visits, poll.now);
    forall b <- Judged(s, poll.visits, poll.now)
      ensures GoneIsRight(b.goneSince, polls + [poll], b.key)
    {
      var considered := JudgedIsNoted(s, poll.visits, poll.now, b);
      TrackedIsRight(considered, s.states, polls, poll);
    }
    TickKeepsExactly(s, poll.visits, poll.now, config);
  }

  lemma TrackedIsRight(b: VirtualBattery, states: seq<VirtualBattery>, polls: seq<Poll>, poll: Poll)
    requires AllGoneRight(states, polls) && GoneTracks(b, states, poll.visits, poll.now)
    ensures GoneIsRight(b.goneSince, polls + [poll], b.key)
  {
    if Fine(poll.visits, b.key, Answering) {
      AnsweredIsRight(b.goneSince, polls, poll, b.key);
    } else {
      var was :| was in states && was.key == b.key
                 && b.goneSince == Note(was.goneSince, was.goneSince.None? && !Gone(poll.visits, b.key), poll.now);
      UnansweredIsRight(was.goneSince, polls, poll, b.key);
    }
  }

  lemma TurnKeepsGoneRight(s: BridgeState, polls: seq<Poll>, turn: Turn, config: Config)
    requires Inv(s) && AllGoneRight(s.states, polls) && (turn.Waited? ==> NamesLiveDevices(turn.serve))
    ensures AllGoneRight(Advance(s, turn, config).states, polls + PollOf(turn))
  {
    match turn
    case Ticked(visits, now) => TickKeepsGoneRight(s, polls, Poll(visits, now), config);
    case Waited(serve, _) =>
      WaitKeepsGoneRight(s, serve, polls);
      assert polls + [] == polls;
  }

  lemma {:induction false} WaitKeepsGoneRight(s: BridgeState, serve: Serving, polls: seq<Poll>)
    requires s.Aligned() && NamesLiveDevices(serve) && AllGoneRight(s.states, polls)
    ensures AllGoneRight(s.Wait(serve, 0).states, polls)
  {
    WaitTouchesNoClock(s, serve, 0);
    forall b <- s.Wait(serve, 0).states
      ensures GoneIsRight(b.goneSince, polls, b.key)
    {
      var was :| was in s.states && SameClocks(b, was);
    }
  }

  /**
   Over every run, each live battery's clock of being gone started on the first poll that said so
   since its headset last answered, and is off if none has.
   */
  lemma {:induction false} GoneClocksAreRight(inherited: seq<Handle>, turns: seq<Turn>, config: Config)
    requires Timely(turns)
    ensures AllGoneRight(Run(inherited, turns, config).states, Polls(turns))
    decreases |turns|
  {
    if turns == [] {
    } else {
      TimelyBefore(turns);
      GoneClocksAreRight(inherited, turns[..|turns| - 1], config);
      var most := turns[..|turns| - 1];
      TurnKeepsGoneRight(Run(inherited, most, config), Polls(most), turns[|turns| - 1], config);
    }
  }

  /** And that is believed exactly once it has lasted: the battery goes then, and not before. */
  lemma GoneIsBelievedOnceItLasts(s: BridgeState, headset: Headset, now: nat, io: Io, b: VirtualBattery)
    requires Inv(s) && b in s.states && b.key == headset.Key() && headset.battery.Disconnected?
    ensures IsLive(s.Apply(headset, now, io), b.key)
       <==> b.goneSince.None? || Since(now, b.goneSince.value) < DISCONNECT_SETTLE
  {
    var index := Position(s.states, headset.Key()).value;
    var seen := s.Seen(headset.Key(), now);
    assert s.states[index] == b;
    assert Inv(seen) && s.Apply(headset, now, io) == seen.Gone(index, now);
    GoneGoes(seen, index, now);
  }

  lemma GoneGoes(s: BridgeState, index: nat, now: nat)
    requires Inv(s) && index < |s.states|
    ensures var b := s.states[index];
      IsLive(s.Gone(index, now), b.key) <==> b.goneSince.None? || Since(now, b.goneSince.value) < DISCONNECT_SETTLE
  {
    var after := s.Gone(index, now);
    if |after.states| == |s.states| {
      assert after.states[index] in after.states && after.states[index].key == s.states[index].key;
    } else {
      assert forall i :: 0 <= i < |after.states| ==> after.states[i] == s.states[if i < index then i else i + 1];
    }
  }
}
