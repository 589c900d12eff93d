/**
 What holds over whole runs of the bridge, polls and waits in any order, whatever the readers
 report and however the kernel fails.
 */
module BridgeRuns {
  import opened Prelude
  import opened Headsets
  import opened Policy
  import opened BridgeStates
  import opened BridgeInvariants

  /** One turn of the daemon: a poll, or serving the devices for a while, until `until`. */
  datatype Turn = Ticked(visits: seq<Visit>, now: nat) | Waited(serve: Serving, until: nat)

  /** Time moves on from `clock` with this turn, and failures name devices that are there. */
  ghost predicate Follows(clock: nat, turn: Turn) {
    match turn
    case Ticked(_, now) => clock < now
    case Waited(serve, until) =>
      && clock <= until && NamesLiveDevices(serve)
      && (forall n: nat, live: nat :: serve(n, live).DeviceFailed? ==> clock <= serve(n, live).at <= until)
      && (forall n: nat, live: nat, m: nat, left: nat ::
            n < m && serve(n, live).DeviceFailed? && serve(m, left).DeviceFailed? ==>
              serve(n, live).at <= serve(m, left).at)
  }

  function Clock(turns: seq<Turn>): nat {
    if turns == [] then
      0
    else
      match turns[|turns| - 1]
      case Ticked(_, now) => now
      case Waited(_, until) => until
  }

  ghost predicate Timely(turns: seq<Turn>) {
    forall i :: 0 <= i < |turns| ==> Follows(Clock(turns[..i]), turns[i])
  }

  lemma TimelyBefore(turns: seq<Turn>)
    requires turns != [] && Timely(turns)
    ensures Timely(turns[..|turns| - 1])
    ensures Follows(Clock(turns[..|turns| - 1]), turns[|turns| - 1])
  {
  }

  function Start(inherited: seq<Handle>): BridgeState {
    BridgeState([], [], PoolState(inherited, inherited == [], 0), map[], {}, [], 0)
  }

  ghost function Advance(s: BridgeState, turn: Turn, config: Config): (after: BridgeState)
    requires Inv(s) && (turn.Waited? ==> NamesLiveDevices(turn.serve))
    ensures Inv(after)
  {
    match turn
    case Ticked(visits, now) =>
      TickKeepsInv(s, visits, now, config);
      s.Tick(visits, now, config)
    case Waited(serve, _) =>
      WaitKeepsInv(s, serve, 0);
      s.Wait(serve, 0)
  }

  ghost function Run(inherited: seq<Handle>, turns: seq<Turn>, config: Config): (after: BridgeState)
    requires Timely(turns)
    ensures Inv(after)
  {
    if turns == [] then
      Start(inherited)
    else
      TimelyBefore(turns);
      Advance(Run(inherited, turns[..|turns| - 1], config), turns[|turns| - 1], config)
  }

  // ----- Handles -----

  lemma {:induction false} RunIsAccounted(inherited: seq<Handle>, turns: seq<Turn>, config: Config)
    requires Timely(turns)
    ensures Accounted(Run(inherited, turns, config), multiset(inherited))
    decreases |turns|
  {
    if turns == [] {
    } else {
      TimelyBefore(turns);
      var before := Run(inherited, turns[..|turns| - 1], config);
      RunIsAccounted(inherited, turns[..|turns| - 1], config);
      match turns[|turns| - 1]
      case Ticked(visits, now) => TickIsAccounted(before, visits, now, config, multiset(inherited));
      case Waited(serve, _) => WaitIsAccounted(before, serve, 0, multiset(inherited));
    }
  }

  lemma {:induction false} MayOpenIsFixed(inherited: seq<Handle>, turns: seq<Turn>, config: Config)
    requires Timely(turns)
    ensures Run(inherited, turns, config).pool.mayOpen == (inherited == [])
    decreases |turns|
  {
    if turns == [] {
    } else {
      TimelyBefore(turns);
      var before := Run(inherited, turns[..|turns| - 1], config);
      MayOpenIsFixed(inherited, turns[..|turns| - 1], config);
      match turns[|turns| - 1]
      case Ticked(visits, now) => TickKeepsMayOpen(before, visits, now, config);
      case Waited(serve, _) => WaitKeepsMayOpen(before, serve, 0);
    }
  }

  lemma ApplyKeepsMayOpen(s: BridgeState, headset: Headset, now: nat, io: Io)
    requires s.Aligned()
    ensures s.Apply(headset, now, io).pool.mayOpen == s.pool.mayOpen
  {
  }

  lemma {:induction false} TickKeepsMayOpen(s: BridgeState, visits: seq<Visit>, now: nat, config: Config)
    requires s.Aligned()
    ensures s.ConsiderAll(visits, now).pool.mayOpen == s.pool.mayOpen
    ensures s.Tick(visits, now, config).pool.mayOpen == s.pool.mayOpen
    decreases |visits|
  {
    if visits == [] {
    } else {
      var n := |visits| - 1;
      TickKeepsMayOpen(s, visits[..n], now, config);
      ApplyKeepsMayOpen(s.ConsiderAll(visits[..n], now), visits[n].headset, now, visits[n].io);
    }
  }

  lemma {:induction false} WaitKeepsMayOpen(s: BridgeState, serve: Serving, n: nat)
    requires s.Aligned() && NamesLiveDevices(serve)
    ensures s.Wait(serve, n).pool.mayOpen == s.pool.mayOpen
    decreases Strikes(s.states)
  {
    var served := serve(n, |s.devices|);
    if served.DeviceFailed? {
      OutcomeIsAStrike(s, served.index, served.at);
      WaitKeepsMayOpen(s.Outcome(served.index, false, served.at), serve, n + 1);
    }
  }

  /**
   Handles are conserved over every run. Those inherited are all spare or with a device, each
   of them once; and with none inherited, as many are ever opened as were held at once.
   */
  lemma {:induction false} HandlesAreConserved(inherited: seq<Handle>, turns: seq<Turn>, config: Config)
    requires Timely(turns)
    ensures var s := Run(inherited, turns, config);
      if inherited != [] then
        Held(s) == multiset(inherited) && s.pool.everOpened == 0
      else
        Held(s) == OwnHandles(s.pool.everOpened) && s.pool.everOpened == s.peak
  {
    RunIsAccounted(inherited, turns, config);
    MayOpenIsFixed(inherited, turns, config);
  }

  // ----- What is barred stays barred -----

  /** What a later event may not be, for an earlier one: too early an attempt, or any at all. */
  predicate Allows(earlier: Event, later: Event) {
    later.Attempted? ==>
      && (earlier.Barred? && earlier.key == later.key ==> earlier.at + ATTACH_RETRY <= later.at)
      && (earlier.Abandoned? ==> earlier.key != later.key)
  }

  ghost predicate Orderly(trace: seq<Event>) {
    forall i, j :: 0 <= i < j < |trace| ==> Allows(trace[i], trace[j])
  }

  /** What has been barred is on record, or long past at `clock`; what is abandoned is on record. */
  ghost predicate Recorded(s: BridgeState, clock: nat) {
    forall e <- s.trace ::
      && (e.Barred? ==>
            && e.at <= clock
            && ((e.key in s.retryAt && e.at + ATTACH_RETRY <= s.retryAt[e.key]) || e.at + ATTACH_RETRY <= clock))
      && (e.Abandoned? ==> e.key in s.abandoned)
  }

  ghost predicate Disciplined(s: BridgeState, clock: nat) {
    Orderly(s.trace) && Recorded(s, clock)
  }

  lemma OneMoreEvent(trace: seq<Event>, e: Event)
    requires Orderly(trace) && (forall earlier <- trace :: Allows(earlier, e))
    ensures Orderly(trace + [e])
  {
  }

  lemma OutcomeIsDisciplined(s: BridgeState, index: nat, ok: bool, now: nat, clock: nat)
    requires s.Aligned() && index < |s.devices| && Disciplined(s, clock) && clock <= now
    ensures Disciplined(s.Outcome(index, ok, now), now)
  {
  }

  lemma UpdateIsDisciplined(s: BridgeState, index: nat, reading: Reading, sample: Option<nat>, now: nat, pushed: bool)
    requires s.Aligned() && index < |s.devices| && Disciplined(s, now)
    ensures Disciplined(s.Update(index, reading, sample, now, pushed), now)
  {
    var battery := s.states[index].(lastReading := now, goneSince := None);
    var (record, vetted) := Vetted(battery.record, s.devices[index].reading, reading, sample);
    if vetted.Some? {
      var push := s.Taken(index, reading, sample, now).Push(index, battery.(record := record), vetted.value, now);
      assert Disciplined(push, now);
      OutcomeIsDisciplined(push, index, pushed, now, now);
    }
  }

  lemma AttachIsDisciplined(s: BridgeState, headset: Headset, reading: Reading, now: nat, io: Io)
    requires Disciplined(s, now)
    requires headset.Key() !in s.abandoned
    requires headset.Key() in s.retryAt ==> s.retryAt[headset.Key()] <= now
    ensures Disciplined(s.Attach(headset, reading, now, io).0, now)
    ensures s.Attach(headset, reading, now, io).0.retryAt == s.retryAt
    ensures s.Attach(headset, reading, now, io).0.abandoned == s.abandoned
    ensures forall e <- s.Attach(headset, reading, now, io).0.trace ::
      e.Barred? && e.key == headset.Key() ==> e.at + ATTACH_RETRY <= now
  {
    OneMoreEvent(s.trace, Attempted(headset.Key(), now));
  }

  lemma AttachIfAllowedIsDisciplined(s: BridgeState, headset: Headset, reading: Reading, now: nat, io: Io)
    requires Disciplined(s, now)
    ensures Disciplined(s.AttachIfAllowed(headset, reading, now, io), now)
  {
    var key := headset.Key();
    if !((key in s.retryAt && now < s.retryAt[key]) || key in s.abandoned) {
      AttachIsDisciplined(s, headset, reading, now, io);
      var tried := s.Attach(headset, reading, now, io).0;
      OneMoreEvent(tried.trace, Barred(key, now));
      OneMoreEvent(tried.trace, Abandoned(key));
    }
  }

  lemma {:induction false} ApplyIsDisciplined(s: BridgeState, headset: Headset, now: nat, io: Io)
    requires s.Aligned() && Disciplined(s, now)
    ensures Disciplined(s.Apply(headset, now, io), now)
  {
    var existing := Position(s.states, headset.Key());
    var seen := s.Seen(headset.Key(), now);
    var reading := s.ReadingOf(headset);
    if reading.Some? {
      if existing.Some? {
        UpdateIsDisciplined(seen, existing.value, reading.value, headset.sample, now, io.pushed);
      } else {
        AttachIfAllowedIsDisciplined(seen, headset, reading.value, now, io);
      }
    }
  }

  lemma {:induction false} ConsiderAllIsDisciplined(s: BridgeState, visits: seq<Visit>, now: nat)
    requires s.Aligned() && Disciplined(s, now)
    ensures Disciplined(s.ConsiderAll(visits, now), now)
    decreases |visits|
  {
    if visits == [] {
    } else {
      var n := |visits| - 1;
      ConsiderAllIsDisciplined(s, visits[..n], now);
      ApplyIsDisciplined(s.ConsiderAll(visits[..n], now), visits[n].headset, now, visits[n].io);
    }
  }

  /** Serving goes on from round `n`, when the failures so far came no later than `clock`. */
  lemma {:induction false} WaitGoesOn(s: BridgeState, serve: Serving, n: nat, clock: nat, until: nat)
    requires s.Aligned() && NamesLiveDevices(serve) && Disciplined(s, clock) && clock <= until
    requires forall m: nat, live: nat :: n <= m && serve(m, live).DeviceFailed? ==> clock <= serve(m, live).at <= until
    requires forall n: nat, live: nat, m: nat, left: nat ::
      n < m && serve(n, live).DeviceFailed? && serve(m, left).DeviceFailed? ==> serve(n, live).at <= serve(m, left).at
    ensures Disciplined(s.Wait(serve, n), until)
    decreases Strikes(s.states)
  {
    var served := serve(n, |s.devices|);
    if served.DeviceFailed? {
      OutcomeIsAStrike(s, served.index, served.at);
      OutcomeIsDisciplined(s, served.index, false, served.at, clock);
      WaitGoesOn(s.Outcome(served.index, false, served.at), serve, n + 1, served.at, until);
    }
  }

  /**
   Over every run, once a headset could not be attached or its device struck out, no device is
   created for it for a minute; and once it is abandoned, none ever is.
   */
  lemma {:induction false} BarredHeadsetsAreLeftAlone(inherited: seq<Handle>, turns: seq<Turn>, config: Config)
    requires Timely(turns)
    ensures Disciplined(Run(inherited, turns, config), Clock(turns))
    decreases |turns|
  {
    if turns == [] {
    } else {
      TimelyBefore(turns);
      var most := turns[..|turns| - 1];
      var before := Run(inherited, most, config);
      BarredHeadsetsAreLeftAlone(inherited, most, config);
      match turns[|turns| - 1]
      case Ticked(visits, now) => ConsiderAllIsDisciplined(before, visits, now);
      case Waited(serve, until) => WaitGoesOn(before, serve, 0, Clock(most), until);
    }
  }
}
