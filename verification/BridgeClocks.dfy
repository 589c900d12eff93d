/**
 The grace clocks over whole runs of the bridge: since when a headset has been silent or missing,
 and exactly when its battery is withdrawn for it.
 */
module BridgeClocks {
  import opened Prelude
  import opened Headsets
  import opened Policy
  import opened BridgeStates
  import opened BridgeInvariants
  import opened BridgeRuns

  /** What a poll reported, and when. */
  datatype Poll = Poll(visits: seq<Visit>, now: nat)

  function Polls(turns: seq<Turn>): seq<Poll> {
    if turns == [] then [] else Polls(turns[..|turns| - 1]) + PollOf(turns[|turns| - 1])
  }

  function PollOf(turn: Turn): seq<Poll> {
    match turn
    case Ticked(visits, now) => [Poll(visits, now)]
    case Waited(_, _) => []
  }

  /** What a clock watches for: that the headset is listed, or that it answers. */
  datatype Watched = Listing | Answering

  predicate Gives(headset: Headset, key: HeadsetKey, watched: Watched) {
    && headset.Key() == key && headset.supportsBattery
    && (watched.Answering? ==> headset.battery.Discharging? || headset.battery.Charging?)
  }

  ghost predicate Fine(visits: seq<Visit>, key: HeadsetKey, watched: Watched) {
    exists v <- visits :: Gives(v.headset, key, watched)
  }

  /**
   Poll `i` is the first of an unbroken run of polls, up to the last, that do not find the
   headset as watched for; the poll before it did.
   */
  ghost predicate RunStarts(polls: seq<Poll>, key: HeadsetKey, watched: Watched, i: nat) {
    && 0 < i < |polls| && Fine(polls[i - 1].visits, key, watched)
    && forall j :: i <= j < |polls| ==> !Fine(polls[j].visits, key, watched)
  }

  /** A clock stands still if the last poll was fine, and otherwise started when the run did. */
  ghost predicate ClockIsRight(since: Option<nat>, polls: seq<Poll>, key: HeadsetKey, watched: Watched) {
    match since
    case None => polls != [] && Fine(polls[|polls| - 1].visits, key, watched)
    case Some(t) => exists i: nat :: RunStarts(polls, key, watched, i) && polls[i].now == t
  }

  /** A clock carried over a poll stays right. */
  lemma ClockGoesOn(since: Option<nat>, polls: seq<Poll>, poll: Poll, key: HeadsetKey, watched: Watched)
    requires Fine(poll.visits, key, watched) || ClockIsRight(since, polls, key, watched)
    ensures ClockIsRight(Note(since, Fine(poll.visits, key, watched), poll.now), polls + [poll], key, watched)
  {
    var all := polls + [poll];
    if !Fine(poll.visits, key, watched) {
      if since.Some? {
        var i: nat :| RunStarts(polls, key, watched, i) && polls[i].now == since.value;
        assert RunStarts(all, key, watched, i) && all[i].now == since.value;
      } else {
        assert RunStarts(all, key, watched, |polls|) && all[|polls|].now == poll.now;
      }
    }
  }

  // ----- What a poll does to the batteries -----

  ghost predicate SameClocks(b: VirtualBattery, was: VirtualBattery) {
    (b.key, b.lastReading, b.lastSeen, b.silentSince, b.missingSince, b.goneSince)
    == (was.key, was.lastReading, was.lastSeen, was.silentSince, was.missingSince, was.goneSince)
  }

  /** What has become of the entries on a poll that has reported `visits` so far. */
  ghost predicate Tracks(b: VirtualBattery, states: seq<VirtualBattery>, visits: seq<Visit>, now: nat) {
    && (b.lastReading == now <==> Fine(visits, b.key, Answering))
    && (b.lastSeen == now <==> Fine(visits, b.key, Listing))
    && b.lastReading <= now && b.lastSeen <= now
    && (b.lastReading != now ==> exists was <- states :: was.key == b.key && was.silentSince == b.silentSince)
    && (b.lastSeen != now ==> exists was <- states :: was.key == b.key && was.missingSince == b.missingSince)
  }

  lemma OutcomeTouchesOne(s: BridgeState, index: nat, ok: bool, now: nat)
    requires s.Aligned() && index < |s.devices|
    ensures forall b <- s.Outcome(index, ok, now).states ::
      b in s.states || (b.key == s.states[index].key && SameClocks(b, s.states[index]))
  {
  }

  lemma UpdateTouchesOne(s: BridgeState, index: nat, reading: Reading, sample: Option<nat>, now: nat, pushed: bool)
    requires Inv(s) && index < |s.devices|
    ensures forall b <- s.Update(index, reading, sample, now, pushed).states ::
      if b.key != s.states[index].key then b in s.states
      else b.lastReading == now && b.lastSeen == s.states[index].lastSeen && b.goneSince == None
  {
    var battery := s.states[index].(lastReading := now, goneSince := None);
    var (record, vetted) := Vetted(battery.record, s.devices[index].reading, reading, sample);
    if vetted.Some? {
      var push := s.Taken(index, reading, sample, now).Push(index, battery.(record := record), vetted.value, now);
      OutcomeTouchesOne(push, index, pushed, now);
    }
  }

  lemma GoneTouchesOne(s: BridgeState, index: nat, now: nat)
    requires Inv(s) && index < |s.devices|
    ensures forall b <- s.Gone(index, now).states ::
      if b.key != s.states[index].key then b in s.states
      else b == s.states[index].(goneSince := Note(s.states[index].goneSince, false, now))
  {
  }

  lemma AttachTouchesOne(s: BridgeState, headset: Headset, reading: Reading, now: nat, io: Io)
    ensures forall b <- s.AttachIfAllowed(headset, reading, now, io).states ::
      b in s.states || b == NewBattery(headset.Key(), reading, now)
  {
  }

  /** The entry of a headset that is listed without answering, or as gone. */
  ghost predicate Unanswered(b: VirtualBattery, was: VirtualBattery, headset: Headset, now: nat) {
    && (b.key, b.silentSince, b.lastReading) == (was.key, was.silentSince, was.lastReading)
    && b.goneSince == if headset.battery.Disconnected? then Note(was.goneSince, false, now) else was.goneSince
  }

  /** Only the entry of the headset applied is touched, and as its state calls for. */
  lemma ApplyTouchesOne(s: BridgeState, headset: Headset, now: nat, io: Io)
    requires Inv(s)
    ensures forall b <- s.Apply(headset, now, io).states ::
      if b.key != headset.Key() then
        b in s.states
      else
        && b.lastSeen == now
        && if headset.battery.Discharging? || headset.battery.Charging? then b.lastReading == now && b.goneSince == None
           else exists was <- s.states :: Unanswered(b, was, headset, now)
  {
    var key := headset.Key();
    var existing := Position(s.states, key);
    var seen := s.Seen(key, now);
    assert Inv(seen);
    var reading := s.ReadingOf(headset);
    if existing.Some? {
      assert s.states[existing.value] in s.states;
      if reading.Some? {
        UpdateTouchesOne(seen, existing.value, reading.value, headset.sample, now, io.pushed);
      } else {
        GoneTouchesOne(seen, existing.value, now);
      }
    } else if reading.Some? {
      AttachTouchesOne(seen, headset, reading.value, now, io);
    }
  }

  lemma FineOfOneMore(visits: seq<Visit>, visit: Visit, key: HeadsetKey, watched: Watched)
    ensures Fine(visits + [visit], key, watched) <==> Fine(visits, key, watched) || Gives(visit.headset, key, watched)
  {
  }

  lemma ConsiderTracks(s: BridgeState, states: seq<VirtualBattery>, visits: seq<Visit>, visit: Visit, now: nat)
    requires Inv(s) && forall b <- s.states :: Tracks(b, states, visits, now)
    ensures forall b <- s.Consider(visit, now).states :: Tracks(b, states, visits + [visit], now)
  {
    if visit.headset.supportsBattery {
      ApplyTouchesOne(s, visit.headset, now, visit.io);
    }
    forall b <- s.Consider(visit, now).states
      ensures Tracks(b, states, visits + [visit], now)
    {
      FineOfOneMore(visits, visit, b.key, Answering);
      FineOfOneMore(visits, visit, b.key, Listing);
    }
  }

  lemma {:induction false} ConsiderAllTracks(s: BridgeState, visits: seq<Visit>, now: nat)
    requires Inv(s) && forall b <- s.states :: b.lastReading < now && b.lastSeen < now
    ensures forall b <- s.ConsiderAll(visits, now).states :: Tracks(b, s.states, visits, now)
    decreases |visits|
  {
    if visits == [] {
    } else {
      var n := |visits| - 1;
      ConsiderAllTracks(s, visits[..n], now);
      ConsiderAllKeepsInv(s, visits[..n], now);
      ConsiderTracks(s.ConsiderAll(visits[..n], now), s.states, visits[..n], visits[n], now);
      assert visits[..n] + [visits[n]] == visits;
    }
  }

  // ----- The clocks after every poll -----

  ghost predicate Clocked(b: VirtualBattery, polls: seq<Poll>) {
    && polls != []
    && b.lastReading <= polls[|polls| - 1].now && b.lastSeen <= polls[|polls| - 1].now
    && ClockIsRight(b.silentSince, polls, b.key, Answering)
    && ClockIsRight(b.missingSince, polls, b.key, Listing)
  }

  ghost predicate AllClocked(states: seq<VirtualBattery>, polls: seq<Poll>) {
    forall b <- states :: Clocked(b, polls)
  }

  /** Neither grace was over on the last poll, at `now`. */
  ghost predicate WithinGrace(b: VirtualBattery, now: nat, config: Config) {
    b.Withdrawn(now, config).Keep?
  }

  lemma {:induction false} NotedIsClocked(b: VirtualBattery, states: seq<VirtualBattery>, polls: seq<Poll>, poll: Poll)
    requires AllClocked(states, polls)
    requires Tracks(b, states, poll.visits, poll.now)
    ensures Clocked(b.Noted(poll.now), polls + [poll])
  {
    ClockGoesOn(b.silentSince, polls, poll, b.key, Answering);
    ClockGoesOn(b.missingSince, polls, poll, b.key, Listing);
  }

  lemma {:induction false} KeptExactly(states: seq<VirtualBattery>, now: nat, config: Config)
    ensures forall b :: b in KeptStates(states, now, config) <==> b in states && b.Withdrawn(now, config).Keep?
    decreases |states|
  {
    if states == [] {
    } else {
      var n := |states| - 1;
      KeptExactly(states[..n], now, config);
      assert states == states[..n] + [states[n]];
    }
  }

  /** The batteries as the last poll of a run leaves them, before the graces are judged. */
  ghost function Judged(before: BridgeState, visits: seq<Visit>, now: nat): seq<VirtualBattery>
    requires before.Aligned()
  {
    before.ConsiderAll(visits, now).NoteAll(now).states
  }

  lemma JudgedAreClocked(s: BridgeState, polls: seq<Poll>, poll: Poll)
    requires Inv(s) && AllClocked(s.states, polls)
    requires forall b <- s.states :: b.lastReading < poll.now && b.lastSeen < poll.now
    ensures AllClocked(Judged(s, poll.visits, poll.now), polls + [poll])
  {
    ConsiderAllTracks(s, poll.visits, poll.now);
    forall b <- Judged(s, poll.visits, poll.now)
      ensures Clocked(b, polls + [poll])
    {
      var considered := JudgedIsNoted(s, poll.visits, poll.now, b);
      NotedIsClocked(considered, s.states, polls, poll);
    }
  }

  lemma JudgedIsNoted(
    s: BridgeState, visits: seq<Visit>, now: nat, b: VirtualBattery) returns (considered: VirtualBattery)
    requires s.Aligned() && b in Judged(s, visits, now)
    ensures considered in s.ConsiderAll(visits, now).states && b == considered.Noted(now)
  {
    var states := s.ConsiderAll(visits, now).states;
    var i :| 0 <= i < |states| && b == states[i].Noted(now);
    considered := states[i];
  }

  lemma TickKeepsExactly(s: BridgeState, visits: seq<Visit>, now: nat, config: Config)
    requires s.Aligned()
    ensures forall b ::
      b in s.Tick(visits, now, config).states <==> b in Judged(s, visits, now) && WithinGrace(b, now, config)
  {
    KeptExactly(Judged(s, visits, now), now, config);
  }

  lemma {:induction false} WaitTouchesNoClock(s: BridgeState, serve: Serving, n: nat)
    requires s.Aligned() && NamesLiveDevices(serve)
    ensures forall b <- s.Wait(serve, n).states :: exists was <- s.states :: SameClocks(b, was)
    decreases Strikes(s.states)
  {
    var served := serve(n, |s.devices|);
    if served.DeviceFailed? {
      OutcomeIsAStrike(s, served.index, served.at);
      var after := s.Outcome(served.index, false, served.at);
      OutcomeTouchesOne(s, served.index, false, served.at);
      assert s.states[served.index] in s.states;
      WaitTouchesNoClock(after, serve, n + 1);
    }
  }

  lemma {:induction false} PollsAreTimely(turns: seq<Turn>)
    requires Timely(turns)
    ensures forall i :: 0 <= i < |Polls(turns)| ==> Polls(turns)[i].now <= Clock(turns)
    ensures forall i, j :: 0 <= i < j < |Polls(turns)| ==> Polls(turns)[i].now < Polls(turns)[j].now
    decreases |turns|
  {
    if turns == [] {
    } else {
      TimelyBefore(turns);
      PollsAreTimely(turns[..|turns| - 1]);
    }
  }

  /** Every battery's clocks are right, and neither grace was over on the last poll. */
  ghost predicate RightAndWithinGrace(s: BridgeState, polls: seq<Poll>, config: Config) {
    AllClocked(s.states, polls) && forall b <- s.states :: polls != [] && WithinGrace(b, polls[|polls| - 1].now, config)
  }

  lemma TickKeepsClocksRight(s: BridgeState, polls: seq<Poll>, poll: Poll, config: Config)
    requires Inv(s) && AllClocked(s.states, polls) && (polls != [] ==> polls[|polls| - 1].now < poll.now)
    ensures RightAndWithinGrace(s.Tick(poll.visits, poll.now, config), polls + [poll], config)
  {
    JudgedAreClocked(s, polls, poll);
    TickKeepsExactly(s, poll.visits, poll.now, config);
  }

  lemma SameClocksAreRight(b: VirtualBattery, was: VirtualBattery, polls: seq<Poll>, now: nat, config: Config)
    requires SameClocks(b, was) && Clocked(was, polls) && WithinGrace(was, now, config)
    ensures Clocked(b, polls) && WithinGrace(b, now, config)
  {
  }

  lemma WaitKeepsClocksRight(s: BridgeState, serve: Serving, polls: seq<Poll>, config: Config)
    requires s.Aligned() && NamesLiveDevices(serve) && RightAndWithinGrace(s, polls, config)
    ensures RightAndWithinGrace(s.Wait(serve, 0), polls, config)
  {
    WaitTouchesNoClock(s, serve, 0);
    forall b <- s.Wait(serve, 0).states
      ensures Clocked(b, polls) && WithinGrace(b, polls[|polls| - 1].now, config)
    {
      var was :| was in s.states && SameClocks(b, was);
      SameClocksAreRight(b, was, polls, polls[|polls| - 1].now, config);
    }
  }

  /**
   Over every run: the clocks of every live battery are exactly since when its headset has been
   silent and missing, and neither grace was over on the last poll.
   */
  lemma {:induction false} GraceClocksAreRight(inherited: seq<Handle>, turns: seq<Turn>, config: Config)
    requires Timely(turns)
    ensures RightAndWithinGrace(Run(inherited, turns, config), Polls(turns), config)
    decreases |turns|
  {
    if turns == [] {
    } else {
      TimelyBefore(turns);
      var most := turns[..|turns| - 1];
      var before := Run(inherited, most, config);
      GraceClocksAreRight(inherited, most, config);
      PollsAreTimely(most);
      TurnKeepsClocksRight(before, Polls(most), turns[|turns| - 1], config);
    }
  }

  lemma TurnKeepsClocksRight(s: BridgeState, polls: seq<Poll>, turn: Turn, config: Config)
    requires Inv(s) && RightAndWithinGrace(s, polls, config)
    requires turn.Waited? ==> NamesLiveDevices(turn.serve)
    requires turn.Ticked? && polls != [] ==> polls[|polls| - 1].now < turn.now
    ensures RightAndWithinGrace(Advance(s, turn, config), polls + PollOf(turn), config)
  {
    match turn
    case Ticked(visits, now) => TickKeepsClocksRight(s, polls, Poll(visits, now), config);
    case Waited(serve, _) =>
      WaitKeepsClocksRight(s, serve, polls, config);
      assert polls + [] == polls;
  }

  /**
   A battery whose grace is over: it has been missing since an earlier poll, for longer than the
   missing grace; or it is listed, or missing for the first time, and has been silent for longer
   than the offline grace.
   */
  ghost predicate Overdue(b: VirtualBattery, now: nat, config: Config) {
    || (b.missingSince.Some? && b.missingSince.value < now && now - b.missingSince.value > config.missingGrace)
    || ((b.missingSince.None? || b.missingSince.value == now)
        && b.silentSince.Some? && now - b.silentSince.value > config.offlineGrace)
  }

  /** After every run, the next poll withdraws for their grace exactly the batteries overdue by then. */
  lemma {:induction false} WithdrawnExactly(
    inherited: seq<Handle>, turns: seq<Turn>, visits: seq<Visit>, now: nat, config: Config)
    requires Timely(turns) && Clock(turns) < now
    ensures var before := Run(inherited, turns, config);
      && AllClocked(Judged(before, visits, now), Polls(turns) + [Poll(visits, now)])
      && forall b <- Judged(before, visits, now) ::
           b !in before.Tick(visits, now, config).states <==> Overdue(b, now, config)
  {
    var before := Run(inherited, turns, config);
    var polls := Polls(turns) + [Poll(visits, now)];
    GraceClocksAreRight(inherited, turns, config);
    PollsAreTimely(turns);
    JudgedAreClocked(before, Polls(turns), Poll(visits, now));
    TickKeepsExactly(before, visits, now, config);
    forall b <- Judged(before, visits, now)
      ensures !WithinGrace(b, now, config) <==> Overdue(b, now, config)
    {
      ClockIsPast(b.silentSince, polls, b.key, Answering);
      ClockIsPast(b.missingSince, polls, b.key, Listing);
    }
  }

  lemma ClockIsPast(since: Option<nat>, polls: seq<Poll>, key: HeadsetKey, watched: Watched)
    requires ClockIsRight(since, polls, key, watched)
    requires forall i, j :: 0 <= i < j < |polls| ==> polls[i].now < polls[j].now
    ensures since.Some? ==> polls != [] && since.value <= polls[|polls| - 1].now
  {
  }

  /**
   A headset that answered on the last poll that listed it is never judged by the offline grace,
   however short that is: it is withdrawn once it has been missing for longer than the missing
   grace, and not before.
   */
  lemma {:induction false} AnsweringHeadsetIsSpared(
    inherited: seq<Handle>, turns: seq<Turn>, visits: seq<Visit>, now: nat, config: Config)
    requires Timely(turns) && Clock(turns) < now
    ensures var before, polls := Run(inherited, turns, config), Polls(turns) + [Poll(visits, now)];
      forall b, i: nat :: b in Judged(before, visits, now) && MissingSinceItAnswered(polls, b.key, i) ==>
        (b !in before.Tick(visits, now, config).states <==> now - polls[i].now > config.missingGrace)
  {
    var before, polls := Run(inherited, turns, config), Polls(turns) + [Poll(visits, now)];
    WithdrawnExactly(inherited, turns, visits, now, config);
    forall b, i: nat | b in Judged(before, visits, now) && MissingSinceItAnswered(polls, b.key, i)
      ensures Overdue(b, now, config) <==> now - polls[i].now > config.missingGrace
    {
      MissingIsUnanswered(polls, b.key, i);
      RunsStartOnce(polls, b.key, Listing, i, b.missingSince);
      RunsStartOnce(polls, b.key, Answering, i, b.silentSince);
    }
  }

  /** No poll has listed the headset from poll `i` on, and it answered on the one before. */
  ghost predicate MissingSinceItAnswered(polls: seq<Poll>, key: HeadsetKey, i: nat) {
    RunStarts(polls, key, Listing, i) && Fine(polls[i - 1].visits, key, Answering)
  }

  lemma MissingIsUnanswered(polls: seq<Poll>, key: HeadsetKey, i: nat)
    requires RunStarts(polls, key, Listing, i) && Fine(polls[i - 1].visits, key, Answering)
    ensures RunStarts(polls, key, Answering, i)
  {
    forall j | i <= j < |polls|
      ensures !Fine(polls[j].visits, key, Answering)
    {
      assert !Fine(polls[j].visits, key, Listing);
    }
  }

  lemma RunsStartOnce(polls: seq<Poll>, key: HeadsetKey, watched: Watched, i: nat, since: Option<nat>)
    requires RunStarts(polls, key, watched, i) && ClockIsRight(since, polls, key, watched)
    ensures since == Some(polls[i].now)
  {
  }

  // ----- The offline grace does fall on a missing headset -----

  /** A headset that reports this, to a kernel that takes everything. */
  function Reporting(battery: BatteryState): seq<Visit> {
    [Visit(Headset("Headset", 1, 2, true, battery, None), Io(true, Created, Registered, true))]
  }

  /** It answers once, and then not. */
  function FallsSilent(): seq<Turn> {
    [Ticked(Reporting(Discharging(50)), 1), Ticked(Reporting(Unavailable), 2)]
  }

  /** Its battery, from then on. */
  function Silenced(silentSince: Option<nat>, lastSeen: nat): VirtualBattery {
    var key := Reporting(Unavailable)[0].headset.Key();
    NewBattery(key, Reading(50, false), 1).(lastSeen := lastSeen, silentSince := silentSince)
  }

  /**
   A headset that stops answering while it is listed, and then is not listed, is withdrawn on the
   first poll that misses it if the offline grace is over by then, however long the missing one.
   */
  lemma OfflineGraceFallsOnTheMissing(config: Config)
    ensures Timely(FallsSilent())
    ensures var s := Run([], FallsSilent(), config);
      && s.states == [Silenced(Some(2), 2)]
      && s.Tick([], 3 + config.offlineGrace, config).states == []
  {
    assert Timely([]) && Clock([]) == 0;
    OneMoreTick([], Reporting(Discharging(50)), 1, config);
    FirstTick(config);
    var first := [Ticked(Reporting(Discharging(50)), 1)];
    assert [] + first == first;
    OneMoreTick(first, Reporting(Unavailable), 2, config);
    SecondTick(Run([], first, config), config);
    assert first + [Ticked(Reporting(Unavailable), 2)] == FallsSilent();
    LastTick(Run([], FallsSilent(), config), config);
  }

  lemma {:induction false} OneMoreTick(turns: seq<Turn>, visits: seq<Visit>, now: nat, config: Config)
    requires Timely(turns) && Clock(turns) < now
    ensures var more := turns + [Ticked(visits, now)];
      Timely(more) && Clock(more) == now && Run([], more, config) == Run([], turns, config).Tick(visits, now, config)
  {
    var more := turns + [Ticked(visits, now)];
    assert more[..|turns|] == turns;
    forall i | 0 <= i < |more|
      ensures Follows(Clock(more[..i]), more[i])
    {
      assert i < |turns| ==> more[..i] == turns[..i] && more[i] == turns[i];
    }
  }

  lemma FirstTick(config: Config)
    ensures Start([]).Tick(Reporting(Discharging(50)), 1, config).states == [Silenced(None, 1)]
  {
    var visits := Reporting(Discharging(50));
    assert visits[..0] == [] && Start([]).ConsiderAll([], 1) == Start([]);
    var considered := Start([]).ConsiderAll(visits, 1);
    assert considered == Start([]).Apply(visits[0].headset, 1, visits[0].io);
    assert considered.states == [Silenced(None, 1)];
    OneIsJudged(considered, 1, config);
  }

  lemma SecondTick(s: BridgeState, config: Config)
    requires s.Aligned() && s.states == [Silenced(None, 1)]
    ensures s.Tick(Reporting(Unavailable), 2, config).states == [Silenced(Some(2), 2)]
  {
    var visits := Reporting(Unavailable);
    assert visits[..0] == [] && s.ConsiderAll([], 2) == s;
    var considered := s.ConsiderAll(visits, 2);
    assert considered == s.Apply(visits[0].headset, 2, visits[0].io);
    assert considered.states == [Silenced(None, 2)];
    OneIsJudged(considered, 2, config);
  }

  lemma LastTick(s: BridgeState, config: Config)
    requires s.Aligned() && s.states == [Silenced(Some(2), 2)]
    ensures s.Tick([], 3 + config.offlineGrace, config).states == []
  {
    OneIsJudged(s, 3 + config.offlineGrace, config);
  }

  lemma OneIsJudged(s: BridgeState, now: nat, config: Config)
    requires s.Aligned() && |s.states| == 1
    ensures var b := s.states[0].Noted(now);
      s.NoteAll(now).Expire(now, config).states == if b.Withdrawn(now, config).Keep? then [b] else []
  {
    var noted := s.NoteAll(now);
    assert noted.states == [s.states[0].Noted(now)];
    assert noted.states[..0] == [] && KeptStates([], now, config) == [];
  }
}
