/**
 What the kernel is told over whole runs of the bridge, whatever the readers report: off the
 cable a level shown never rises, unless by a jump that was confirmed.
 */
module Published {
  import opened Prelude
  import opened Headsets
  import opened Policy
  import opened BridgeStates
  import opened BridgeInvariants
  import opened BridgeRuns
  import Vetting

  /** A reading shown for a headset, and since when. */
  datatype Showing = Showing(reading: Reading, at: nat)

  /** The reading shown for a headset: the last one its device was made with, or was pushed. */
  function Shown(trace: seq<Event>, key: HeadsetKey): Option<Showing> {
    if trace == [] then
      None
    else
      match trace[|trace| - 1]
      case Made(k, at, reading) => if k == key then Some(Showing(reading, at)) else Shown(trace[..|trace| - 1], key)
      case Pushed(k, at, _, reading) =>
        if k == key then Some(Showing(reading, at)) else Shown(trace[..|trace| - 1], key)
      case _ => Shown(trace[..|trace| - 1], key)
  }

  lemma ShownAfter(trace: seq<Event>, e: Event, key: HeadsetKey)
    ensures Shown(trace + [e], key) ==
            if (e.Made? || e.Pushed?) && e.key == key then Some(Showing(e.reading, e.at)) else Shown(trace, key)
  {
  }

  /** Off the cable a level falls, or stays, or jumps. */
  predicate FallsOrJumps(known: Reading, reading: Reading) {
    !known.charging && !reading.charging && known.percent < reading.percent ==>
      known.percent + MAX_PLAUSIBLE_STEP < reading.percent
  }

  /** A push replaces what was shown, by what may follow it. */
  predicate Replaces(shown: Option<Showing>, push: Event)
    requires push.Pushed?
  {
    shown.Some? && shown.value.reading == push.known && FallsOrJumps(push.known, push.reading)
  }

  /** Every push replaces the reading shown, and off the cable never by a small rise. */
  ghost predicate WellPublished(trace: seq<Event>) {
    forall i :: 0 <= i < |trace| && trace[i].Pushed? ==>
      Replaces(Shown(trace[..i], trace[i].key), trace[i])
  }

  function ShowingAt(s: BridgeState, i: nat): Showing
    requires i < |s.devices| == |s.states|
  {
    Showing(s.devices[i].reading, s.states[i].publishedAt)
  }

  ghost predicate Faithful(s: BridgeState) {
    && s.Aligned() && WellPublished(s.trace)
    && forall i :: 0 <= i < |s.states| ==> Shown(s.trace, s.states[i].key) == Some(ShowingAt(s, i))
  }

  lemma OneMoreEvent(trace: seq<Event>, e: Event)
    requires WellPublished(trace)
    requires e.Pushed? ==> Replaces(Shown(trace, e.key), e)
    ensures WellPublished(trace + [e])
  {
    var more := trace + [e];
    forall i | 0 <= i < |more| && more[i].Pushed?
      ensures Replaces(Shown(more[..i], more[i].key), more[i])
    {
      assert more[..i] == trace[..i];
    }
  }

  /** An event that shows nothing, and a step that changes nothing of what is shown. */
  lemma {:induction false} EventIsFaithful(s: BridgeState, after: BridgeState, e: Event)
    requires Faithful(s) && !e.Made? && !e.Pushed? && after.trace == s.trace + [e]
    requires after.devices == s.devices && |after.states| == |s.states|
    requires forall i :: 0 <= i < |s.states| ==>
      after.states[i].key == s.states[i].key && after.states[i].publishedAt == s.states[i].publishedAt
    ensures Faithful(after)
  {
    OneMoreEvent(s.trace, e);
    forall i | 0 <= i < |after.states|
      ensures Shown(after.trace, after.states[i].key) == Some(ShowingAt(after, i))
    {
      ShownAfter(s.trace, e, after.states[i].key);
    }
  }

  lemma {:induction false} ReleaseIsFaithful(s: BridgeState, index: nat)
    requires Faithful(s) && index < |s.devices|
    ensures Faithful(s.Release(index))
  {
  }

  lemma {:induction false} OutcomeIsFaithful(s: BridgeState, index: nat, ok: bool, now: nat)
    requires Faithful(s) && index < |s.devices|
    ensures Faithful(s.Outcome(index, ok, now))
  {
    var after, battery := s.Outcome(index, ok, now), s.states[index];
    var talked := s.(trace := s.trace + [after.trace[|s.trace|]]);
    if !ok && battery.failures + 1 >= DEVICE_FAILURE_LIMIT {
      EventIsFaithful(s, talked, after.trace[|s.trace|]);
      ReleaseIsFaithful(talked, index);
      EventIsFaithful(talked.Release(index), after, Barred(battery.key, now));
    } else {
      EventIsFaithful(s, after, after.trace[|s.trace|]);
    }
  }

  lemma PushIsFaithful(s: BridgeState, index: nat, battery: VirtualBattery, reading: Reading, now: nat)
    requires Inv(s) && Faithful(s) && index < |s.devices|
    requires battery.key == s.states[index].key && battery.failures == s.states[index].failures
    requires FallsOrJumps(s.devices[index].reading, reading)
    ensures Faithful(s.Push(index, battery, reading, now))
  {
    var e := Pushed(battery.key, now, s.devices[index].reading, reading);
    OneMoreEvent(s.trace, e);
    var after := s.Push(index, battery, reading, now);
    forall i | 0 <= i < |after.states|
      ensures Shown(after.trace, after.states[i].key) == Some(ShowingAt(after, i))
    {
      ShownAfter(s.trace, e, after.states[i].key);
    }
  }

  lemma {:induction false} UpdateIsFaithful(
    s: BridgeState, index: nat, reading: Reading, sample: Option<nat>, now: nat, pushed: bool)
    requires Inv(s) && Faithful(s) && index < |s.devices|
    ensures Faithful(s.Update(index, reading, sample, now, pushed))
  {
    var battery := s.states[index].(lastReading := now, goneSince := None);
    var (record, vetted) := Vetted(battery.record, s.devices[index].reading, reading, sample);
    var read := s.Taken(index, reading, sample, now);
    TakenIsFaithful(s, index, reading, sample, now);
    if vetted.Some? {
      PushIsFaithful(read, index, battery.(record := record), vetted.value, now);
      OutcomeIsFaithful(read.Push(index, battery.(record := record), vetted.value, now), index, pushed, now);
    }
  }

  lemma TakenIsFaithful(s: BridgeState, index: nat, reading: Reading, sample: Option<nat>, now: nat)
    requires Inv(s) && Faithful(s) && index < |s.devices|
    ensures Inv(s.Taken(index, reading, sample, now)) && Faithful(s.Taken(index, reading, sample, now))
  {
    var after := s.Taken(index, reading, sample, now);
    OneMoreEvent(s.trace, after.trace[|s.trace|]);
    forall i | 0 <= i < |after.states|
      ensures Shown(after.trace, after.states[i].key) == Some(ShowingAt(after, i))
    {
      ShownAfter(s.trace, after.trace[|s.trace|], after.states[i].key);
    }
  }

  lemma GoneIsFaithful(s: BridgeState, index: nat, now: nat)
    requires Faithful(s) && index < |s.devices|
    ensures Faithful(s.Gone(index, now))
  {
  }

  /** An attempt, and what came of it, are all that attaching adds to the trace. */
  lemma AttachIsFaithful(s: BridgeState, headset: Headset, reading: Reading, now: nat, io: Io)
    requires Inv(s) && Faithful(s) && Position(s.states, headset.Key()).None?
    ensures Faithful(s.Attach(headset, reading, now, io).0)
  {
    var key := headset.Key();
    var after := s.Attach(headset, reading, now, io).0;
    var tried := s.trace + [Attempted(key, now)];
    OneMoreEvent(s.trace, Attempted(key, now));
    OneMoreEvent(tried, Made(key, now, reading));
    forall i | 0 <= i < |after.states|
      ensures Shown(after.trace, after.states[i].key) == Some(ShowingAt(after, i))
    {
      ShownAfter(s.trace, Attempted(key, now), after.states[i].key);
      ShownAfter(tried, Made(key, now, reading), after.states[i].key);
    }
  }

  lemma AttachIfAllowedIsFaithful(s: BridgeState, headset: Headset, reading: Reading, now: nat, io: Io)
    requires Inv(s) && Faithful(s) && Position(s.states, headset.Key()).None?
    ensures Faithful(s.AttachIfAllowed(headset, reading, now, io))
  {
    var key := headset.Key();
    AttachIsFaithful(s, headset, reading, now, io);
    var attached := s.Attach(headset, reading, now, io).0;
    OneMoreEvent(attached.trace, Barred(key, now));
    OneMoreEvent(attached.trace, Abandoned(key));
    forall i | 0 <= i < |attached.states|
      ensures Shown(attached.trace + [Barred(key, now)], attached.states[i].key) == Some(ShowingAt(attached, i))
      ensures Shown(attached.trace + [Abandoned(key)], attached.states[i].key) == Some(ShowingAt(attached, i))
    {
      ShownAfter(attached.trace, Barred(key, now), attached.states[i].key);
      ShownAfter(attached.trace, Abandoned(key), attached.states[i].key);
    }
  }

  lemma ApplyIsFaithful(s: BridgeState, headset: Headset, now: nat, io: Io)
    requires Inv(s) && Faithful(s)
    ensures Faithful(s.Apply(headset, now, io))
  {
    var existing := Position(s.states, headset.Key());
    var seen := s.Seen(headset.Key(), now);
    assert Inv(seen) && Faithful(seen);
    var reading := s.ReadingOf(headset);
    if existing.Some? {
      if reading.Some? {
        UpdateIsFaithful(seen, existing.value, reading.value, headset.sample, now, io.pushed);
      } else {
        GoneIsFaithful(seen, existing.value, now);
      }
    } else if reading.Some? {
      AttachIfAllowedIsFaithful(seen, headset, reading.value, now, io);
    }
  }

  lemma {:induction false} ConsiderAllIsFaithful(s: BridgeState, visits: seq<Visit>, now: nat)
    requires Inv(s) && Faithful(s)
    ensures Faithful(s.ConsiderAll(visits, now))
    decreases |visits|
  {
    if visits == [] {
    } else {
      var n := |visits| - 1;
      ConsiderAllIsFaithful(s, visits[..n], now);
      ConsiderAllKeepsInv(s, visits[..n], now);
      ApplyIsFaithful(s.ConsiderAll(visits[..n], now), visits[n].headset, now, visits[n].io);
    }
  }

  lemma TickIsFaithful(s: BridgeState, visits: seq<Visit>, now: nat, config: Config)
    requires Inv(s) && Faithful(s)
    ensures Faithful(s.Tick(visits, now, config))
  {
    ConsiderAllIsFaithful(s, visits, now);
    var noted := s.ConsiderAll(visits, now).NoteAll(now);
    KeptAligned(noted.devices, noted.states, now, config);
    var after := noted.Expire(now, config);
    forall k | 0 <= k < |after.states|
      ensures Shown(after.trace, after.states[k].key) == Some(ShowingAt(after, k))
    {
      var i := KeptFrom(noted.devices, noted.states, now, config, k);
    }
  }

  lemma {:induction false} WaitIsFaithful(s: BridgeState, serve: Serving, n: nat)
    requires Faithful(s) && NamesLiveDevices(serve)
    ensures Faithful(s.Wait(serve, n))
    decreases Strikes(s.states)
  {
    var served := serve(n, |s.devices|);
    if served.DeviceFailed? {
      OutcomeIsAStrike(s, served.index, served.at);
      OutcomeIsFaithful(s, served.index, false, served.at);
      WaitIsFaithful(s.Outcome(served.index, false, served.at), serve, n + 1);
    }
  }

  lemma AdvanceIsFaithful(s: BridgeState, turn: Turn, config: Config)
    requires Inv(s) && Faithful(s) && (turn.Waited? ==> NamesLiveDevices(turn.serve))
    ensures Faithful(Advance(s, turn, config))
  {
    match turn
    case Ticked(visits, now) => TickIsFaithful(s, visits, now, config);
    case Waited(serve, _) => WaitIsFaithful(s, serve, 0);
  }

  /**
   A reading that is not deferred leaves its headset shown as vetting has it, by a push less than
   a minute old - unless that push was its device's last failure.
   */
  lemma AnsweredIsShownFresh(s: BridgeState, index: nat, reading: Reading, sample: Option<nat>, now: nat, pushed: bool)
    requires Inv(s) && Faithful(s) && index < |s.devices|
    requires !Vetting.Defers(Vetting.Gauge(s.devices[index].reading, s.states[index].record),
      Vetting.Sampled(reading, sample))
    ensures var after := s.Update(index, reading, sample, now, pushed);
      var next := Vetting.Step(Vetting.Gauge(s.devices[index].reading, s.states[index].record),
        Vetting.Sampled(reading, sample));
      |after.devices| == |s.devices| ==>
        var showing := Shown(after.trace, s.states[index].key);
        showing.Some? && showing.value.reading == next.known && Since(now, showing.value.at) < REPUBLISH_EVERY
  {
    UpdateIsFaithful(s, index, reading, sample, now, pushed);
    var after := s.Update(index, reading, sample, now, pushed);
    if |after.devices| == |s.devices| {
      assert after.states[index].key == s.states[index].key;
    }
  }

  /** Over every run, the kernel is told of every level that is shown, and of no small rise. */
  lemma {:induction false} RunIsFaithful(inherited: seq<Handle>, turns: seq<Turn>, config: Config)
    requires Timely(turns)
    ensures Faithful(Run(inherited, turns, config))
    decreases |turns|
  {
    if turns == [] {
    } else {
      TimelyBefore(turns);
      RunIsFaithful(inherited, turns[..|turns| - 1], config);
      AdvanceIsFaithful(Run(inherited, turns[..|turns| - 1], config), turns[|turns| - 1], config);
    }
  }

  // ----- Rises in what was shown -----

  /** A push that tells of a charge, or of a jump of more than the plausible step. */
  predicate LetsRise(e: Event, key: HeadsetKey) {
    && e.Pushed? && e.key == key
    && (e.reading.charging || e.known.percent + MAX_PLAUSIBLE_STEP < e.reading.percent)
  }

  lemma {:induction false} WithoutAReasonNothingRises(trace: seq<Event>, key: HeadsetKey, i: nat, j: nat)
    requires WellPublished(trace) && i <= j <= |trace|
    requires forall k :: i <= k < j ==> !(trace[k].Made? && trace[k].key == key) && !LetsRise(trace[k], key)
    requires Shown(trace[..i], key).Some? && !Shown(trace[..i], key).value.reading.charging
    ensures var was, becomes := Shown(trace[..i], key), Shown(trace[..j], key);
      && becomes.Some? && !becomes.value.reading.charging
      && becomes.value.reading.percent <= was.value.reading.percent
    decreases j
  {
    if i < j {
      WithoutAReasonNothingRises(trace, key, i, j - 1);
      assert trace[..j] == trace[..j - 1] + [trace[j - 1]];
      ShownAfter(trace[..j - 1], trace[j - 1], key);
    }
  }

  /**
   Between two moments of a trace, before event `i` and before event `j`, a headset is shown off
   the cable and then at a higher level, on one device.
   */
  ghost predicate HasRisen(trace: seq<Event>, key: HeadsetKey, i: nat, j: nat) {
    && i <= j <= |trace|
    && (forall k :: i <= k < j ==> !(trace[k].Made? && trace[k].key == key))
    && var was, becomes := Shown(trace[..i], key), Shown(trace[..j], key);
      && was.Some? && !was.value.reading.charging
      && becomes.Some? && was.value.reading.percent < becomes.value.reading.percent
  }

  /**
   Over every run: between two moments the level shown off the cable has risen only if it was
   shown charging in between, or pushed up by more than the plausible step - which takes two
   readings (`Lives.JumpsRestOnTwo`).
   */
  lemma {:induction false} RisesShownHaveAReason(
    inherited: seq<Handle>, turns: seq<Turn>, config: Config, key: HeadsetKey)
    requires Timely(turns)
    ensures var trace := Run(inherited, turns, config).trace;
      forall i: nat, j: nat :: HasRisen(trace, key, i, j) ==> exists k :: i <= k < j && LetsRise(trace[k], key)
  {
    RunIsFaithful(inherited, turns, config);
    var trace := Run(inherited, turns, config).trace;
    forall i: nat, j: nat | HasRisen(trace, key, i, j)
      ensures exists k :: i <= k < j && LetsRise(trace[k], key)
    {
      if forall k :: i <= k < j ==> !LetsRise(trace[k], key) {
        WithoutAReasonNothingRises(trace, key, i, j);
      }
    }
  }
}
