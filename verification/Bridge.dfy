/**
 The bridge itself (src/bridge/mod.rs, src/bridge/batteries.rs): it reads the batteries, mirrors
 them onto virtual devices, and serves those between two polls. Each method does in place what
 `BridgeStates` says.
 */
module Bridges {
  import opened Prelude
  import opened Headsets
  import opened Policy
  import opened BridgeStates
  import opened Summaries

  /** The handles new devices are made on: those inherited if there were any, or else as many as it takes. */
  class DevicePool {
    var spare: seq<Handle>
    const mayOpen: bool
    var everOpened: nat

    constructor (inherited: seq<Handle>)
      ensures View() == PoolState(inherited, inherited == [], 0)
    {
      spare := inherited;
      mayOpen := inherited == [];
      everOpened := 0;
    }

    ghost function View(): PoolState
      reads this
    {
      PoolState(spare, mayOpen, everOpened)
    }

    /** Gives out one handle, the last put back first; `opens` is whether opening the node works. */
    method Acquire(opens: bool) returns (handle: Option<Handle>)
      modifies this
      ensures (View(), handle) == old(View()).Acquire(opens)
    {
      if spare != [] {
        handle := Some(spare[|spare| - 1]);
        spare := spare[..|spare| - 1];
      } else if !mayOpen || !opens {
        handle := None;
      } else {
        handle := Some(Own(everOpened));
        everOpened := everOpened + 1;
      }
    }

    /** Takes a handle back. */
    method PutBack(handle: Handle)
      modifies this
      ensures View() == old(View()).PutBack(handle)
    {
      spare := spare + [handle];
    }
  }

  /** Two lists in step: every device, and at its index the bookkeeping about it. */
  class Batteries {
    var devices: seq<Device>
    var states: seq<VirtualBattery>

    constructor ()
      ensures Valid() && devices == [] && states == []
    {
      devices := [];
      states := [];
    }

    ghost predicate Valid()
      reads this
    {
      |devices| == |states|
    }

    method Push(device: Device, state: VirtualBattery)
      requires Valid()
      modifies this
      ensures Valid()
      ensures devices == old(devices) + [device] && states == old(states) + [state]
    {
      devices := devices + [device];
      states := states + [state];
    }

    /** Drops index `index` from both lists. */
    method Remove(index: nat) returns (device: Device, state: VirtualBattery)
      requires Valid() && index < |devices|
      modifies this
      ensures Valid()
      ensures device == old(devices)[index] && state == old(states)[index]
      ensures devices == RemoveAt(old(devices), index) && states == RemoveAt(old(states), index)
    {
      device, state := devices[index], states[index];
      devices := devices[..index] + devices[index + 1..];
      states := states[..index] + states[index + 1..];
    }

    method Drain() returns (drained: seq<Device>)
      requires Valid()
      modifies this
      ensures Valid() && devices == [] && states == [] && drained == old(devices)
    {
      drained := devices;
      devices, states := [], [];
    }
  }

  /** What a probe of the readers comes to; a failure may be due to the daemon stopping. */
  datatype Probe = Readings(visits: seq<Visit>) | ProbeFailed(stopping: bool)
  {
    function Visits(): (reported: seq<Visit>)
      ensures match this case Readings(visits) => reported == visits case ProbeFailed(_) => reported == []
    {
      if Readings? then visits else []
    }

    function Headsets(): (headsets: seq<Headset>)
      requires Readings?
      ensures |headsets| == |visits| && forall i :: 0 <= i < |visits| ==> headsets[i] == visits[i].headset
    {
      seq(|visits|, i requires 0 <= i < |visits| => visits[i].headset)
    }
  }

  class Bridge {
    const config: Config
    const batteries: Batteries
    const uhid: DevicePool
    var probeFailing: bool
    var attachRetryAt: map<HeadsetKey, nat>
    var abandoned: set<HeadsetKey>
    var lastSummary: Option<Summary>
    var unsettled: Option<Unsettled>
    ghost var trace: seq<Event>
    ghost var peak: nat

    constructor (config: Config, inherited: seq<Handle>)
      ensures Valid() && fresh(batteries) && fresh(uhid) && this.config == config
      ensures View() == BridgeState([], [], PoolState(inherited, inherited == [], 0), map[], {}, [], 0)
      ensures Heard() == News(None, None) && !probeFailing
    {
      this.config := config;
      batteries := new Batteries();
      uhid := new DevicePool(inherited);
      probeFailing := false;
      attachRetryAt := map[];
      abandoned := {};
      lastSummary := None;
      unsettled := None;
      trace := [];
      peak := 0;
    }

    ghost predicate Valid()
      reads this, batteries
    {
      batteries.Valid()
    }

    ghost function View(): BridgeState
      reads this, batteries, uhid
    {
      BridgeState(batteries.devices, batteries.states, uhid.View(), attachRetryAt, abandoned, trace, peak)
    }

    ghost function Heard(): News
      reads this
    {
      News(lastSummary, unsettled)
    }

    /** Decides whether a finding is said: it has to be new, and to have lasted. */
    method Announce(summary: Summary, now: nat) returns (said: bool)
      modifies this`lastSummary, this`unsettled
      ensures Heard() == old(Heard()).Announce(summary, now)
      ensures said <==> old(Heard()).Says(summary, now)
    {
      if lastSummary == Some(summary) {
        unsettled := None;
        return false;
      }
      if unsettled.Some? && unsettled.value.summary == summary {
        if Since(now, unsettled.value.since) < SUMMARY_SETTLE {
          return false;
        }
      } else {
        unsettled := Some(Unsettled(summary, now));
        return false;
      }
      unsettled := None;
      lastSummary := Some(summary);
      said := true;
    }

    /** Takes a battery out, withdraws its device and keeps the handle. */
    method Release(index: nat) returns (battery: VirtualBattery)
      requires Valid() && index < |batteries.devices|
      modifies batteries, uhid
      ensures Valid() && battery == old(batteries.states)[index]
      ensures View() == old(View()).Release(index)
    {
      var device;
      device, battery := batteries.Remove(index);
      uhid.PutBack(device.handle);
    }

    /** Clears or counts a strike against a device; `alive` is whether it survives that. */
    method Outcome(index: nat, ok: bool, now: nat) returns (alive: bool)
      requires Valid() && index < |batteries.devices|
      modifies this`attachRetryAt, this`trace, batteries, uhid
      ensures Valid()
      ensures View() == old(View()).Outcome(index, ok, now)
      ensures alive <==> |batteries.devices| == |old(batteries.devices)|
    {
      var battery := batteries.states[index];
      trace := trace + [Talked(battery.key, now, ok, ok || battery.failures + 1 < DEVICE_FAILURE_LIMIT)];
      if ok {
        if battery.failures > 0 {
          batteries.states := batteries.states[index := battery.(failures := 0)];
        }
        return true;
      }
      battery := battery.(failures := battery.failures + 1);
      if battery.failures < DEVICE_FAILURE_LIMIT {
        batteries.states := batteries.states[index := battery];
        return true;
      }
      battery := Release(index);
      attachRetryAt := attachRetryAt[battery.key := now + ATTACH_RETRY];
      trace := trace + [Barred(battery.key, now)];
      alive := false;
    }

    /** Tries to make a device for a headset; every failure gives the handle back. */
    method Attach(headset: Headset, reading: Reading, now: nat, io: Io) returns (result: AttachResult)
      requires Valid()
      modifies this`trace, this`peak, batteries, uhid
      ensures Valid()
      ensures (View(), result) == old(View()).Attach(headset, reading, now, io)
    {
      trace := trace + [Attempted(headset.Key(), now)];
      var handle := uhid.Acquire(io.opens);
      if handle.None? {
        return Retry;
      }
      peak := if peak <= |batteries.devices| then |batteries.devices| + 1 else peak;
      if io.create != Created {
        uhid.PutBack(handle.value);
        return if io.create == IdentityRefused then GiveUp else Retry;
      }
      var device := Device(handle.value, headset.Key(), reading);
      if io.supply != Registered {
        uhid.PutBack(device.handle);
        return Retry;
      }
      batteries.Push(device, NewBattery(headset.Key(), reading, now));
      trace := trace + [Made(headset.Key(), now, reading)];
      result := Attached;
    }

    /** Tries to attach, unless a failure bars that for now or for good. */
    method AttachIfAllowed(headset: Headset, reading: Reading, now: nat, io: Io)
      requires Valid()
      modifies this`attachRetryAt, this`abandoned, this`trace, this`peak, batteries, uhid
      ensures Valid()
      ensures View() == old(View()).AttachIfAllowed(headset, reading, now, io)
    {
      var key := headset.Key();
      var retryPending := key in attachRetryAt && now < attachRetryAt[key];
      if retryPending || key in abandoned {
        return;
      }
      var result := Attach(headset, reading, now, io);
      match result
      case Attached =>
        attachRetryAt := attachRetryAt - {key};
      case Retry =>
        attachRetryAt := attachRetryAt[key := now + ATTACH_RETRY];
        trace := trace + [Barred(key, now)];
      case GiveUp =>
        abandoned := abandoned + {key};
        trace := trace + [Abandoned(key)];
    }

    /** Takes in a level of a headset that has a battery, and pushes it if that is due. */
    method Update(index: nat, reading: Reading, sample: Option<nat>, now: nat, pushed: bool)
      requires Valid() && index < |batteries.devices|
      modifies this`attachRetryAt, this`trace, batteries, uhid
      ensures Valid()
      ensures View() == old(View()).Update(index, reading, sample, now, pushed)
    {
      var device := batteries.devices[index];
      var battery := batteries.states[index].(lastReading := now, goneSince := None);
      var (record, vetted) := Vetted(battery.record, device.reading, reading, sample);
      battery := battery.(record := record);
      batteries.states := batteries.states[index := battery];
      trace := trace + [Read(battery.key, now, reading, sample)];
      if vetted.None? {
        return;
      }
      if device.reading == vetted.value && Since(now, battery.publishedAt) < REPUBLISH_EVERY {
        return;
      }
      Push(index, vetted.value, now);
      var _ := Outcome(index, pushed, now);
    }

    /** Has the device show a reading, and notes when - and which level a line was last logged for. */
    method Push(index: nat, reading: Reading, now: nat)
      requires Valid() && index < |batteries.devices|
      modifies this`trace, batteries
      ensures Valid()
      ensures View() == old(View()).Push(index, old(batteries.states)[index], reading, now)
    {
      var device, battery := batteries.devices[index], batteries.states[index];
      var known := device.reading;
      if known != reading && (known.charging != reading.charging
                              || AbsDiff(battery.loggedPercent, reading.percent) >= LOG_STEP) {
        battery := battery.(loggedPercent := reading.percent);
      }
      battery := battery.(publishedAt := now);
      batteries.states := batteries.states[index := battery];
      batteries.devices := batteries.devices[index := device.(reading := reading)];
      trace := trace + [Pushed(battery.key, now, known, reading)];
    }

    /** Takes in one report. */
    method Apply(headset: Headset, now: nat, io: Io)
      requires Valid()
      modifies this`attachRetryAt, this`abandoned, this`trace, this`peak, batteries, uhid
      ensures Valid()
      ensures View() == old(View()).Apply(headset, now, io)
    {
      var existing := Position(batteries.states, headset.Key());
      if existing.Some? {
        var index := existing.value;
        batteries.states := batteries.states[index := batteries.states[index].(lastSeen := now)];
      }
      var reading;
      match headset.battery {
        case Discharging(percent) =>
          reading := Reading(percent, false);
        case Charging(Some(percent)) =>
          reading := Reading(percent, true);
        case Charging(None) =>
          if existing.None? {
            return;
          }
          reading := Reading(batteries.devices[existing.value].reading.percent, true);
        case Unavailable =>
          return;
        case Disconnected =>
          if existing.Some? {
            Gone(existing.value, now);
          }
          return;
      }
      if existing.None? {
        AttachIfAllowed(headset, reading, now, io);
      } else {
        Update(existing.value, reading, headset.sample, now, io.pushed);
      }
    }

    /** A report of being gone, which removes the battery only once such reports have gone on for long enough. */
    method Gone(index: nat, now: nat)
      requires Valid() && index < |batteries.devices|
      modifies batteries, uhid
      ensures Valid()
      ensures View() == old(View()).Gone(index, now)
    {
      var battery := batteries.states[index];
      var since := if battery.goneSince.Some? then battery.goneSince.value else now;
      batteries.states := batteries.states[index := battery.(goneSince := Some(since))];
      if Since(now, since) >= DISCONNECT_SETTLE {
        var _ := Release(index);
      }
    }

    /** Applies everything a poll reports that has a battery. */
    method ApplyAll(visits: seq<Visit>, now: nat)
      requires Valid()
      modifies this`attachRetryAt, this`abandoned, this`trace, this`peak, batteries, uhid
      ensures Valid()
      ensures View() == old(View()).ConsiderAll(visits, now)
    {
      for i := 0 to |visits|
        invariant Valid()
        invariant View() == old(View()).ConsiderAll(visits[..i], now)
      {
        if visits[i].headset.supportsBattery {
          Apply(visits[i].headset, now, visits[i].io);
        }
        assert visits[..i + 1][..i] == visits[..i];
      }
      assert visits[..|visits|] == visits;
    }

    /** Moves both clocks of every battery. */
    method NoteAll(now: nat)
      requires Valid()
      modifies batteries
      ensures Valid()
      ensures View() == old(View()).NoteAll(now)
    {
      ghost var was := batteries.states;
      for i := 0 to |batteries.states|
        invariant Valid() && |batteries.states| == |was| && batteries.devices == old(batteries.devices)
        invariant forall k :: 0 <= k < |was| ==> batteries.states[k] == if k < i then was[k].Noted(now) else was[k]
      {
        var battery := batteries.states[i];
        battery := battery.(silentSince := Note(battery.silentSince, battery.lastReading == now, now));
        battery := battery.(missingSince := Note(battery.missingSince, battery.lastSeen == now, now));
        batteries.states := batteries.states[i := battery];
      }
    }

    /** Releases every battery whose grace is over. */
    method Expire(now: nat)
      requires Valid()
      modifies batteries, uhid
      ensures Valid()
      ensures View() == old(View()).Expire(now, config)
    {
      ghost var was := View();
      ghost var seen := 0;
      var index := 0;
      NothingExpired(was, now, config);
      while index < |batteries.states|
        invariant Valid() && ExpiredSoFar(was, seen, index, View(), now, config)
        decreases |batteries.states| - index
      {
        ExpireOne(was, seen, index, View(), now, config);
        if batteries.states[index].Withdrawn(now, config).Keep? {
          index := index + 1;
        } else {
          var _ := Release(index);
        }
        seen := seen + 1;
      }
      AllExpired(was, seen, index, View(), now, config);
    }

    /**
     One poll, from what the probe found to what is withdrawn; `unanswered` is whether any battery
     left is silent.
     */
    method Tick(probe: Probe, now: nat) returns (unanswered: bool)
      requires Valid()
      modifies this, batteries, uhid
      ensures Valid()
      ensures View() == old(View()).Tick(probe.Visits(), now, config)
      ensures Heard()
           == if probe.Readings? then old(Heard()).Announce(SummaryOf(probe.Headsets()), now) else old(Heard())
      ensures probeFailing <==> probe.ProbeFailed? && (!probe.stopping || old(probeFailing))
      ensures unanswered <==> AnySilent(batteries.states)
    {
      TakeIn(probe, now);
      ApplyAll(probe.Visits(), now);
      NoteAll(now);
      Expire(now);
      unanswered := AnySilent(batteries.states);
    }

    /** Takes in how the probe went, and says so if that is news. */
    method TakeIn(probe: Probe, now: nat)
      modifies this`probeFailing, this`lastSummary, this`unsettled
      ensures Heard()
           == if probe.Readings? then old(Heard()).Announce(SummaryOf(probe.Headsets()), now) else old(Heard())
      ensures probeFailing <==> probe.ProbeFailed? && (!probe.stopping || old(probeFailing))
    {
      match probe
      case Readings(_) =>
        probeFailing := false;
        var _ := Announce(SummaryOf(probe.Headsets()), now);
      case ProbeFailed(stopping) =>
        if !stopping {
          probeFailing := true;
        }
    }

    /** Serves every battery until the deadline; fails when the wait itself does. */
    method Wait(serve: Serving) returns (ok: bool)
      requires Valid() && NamesLiveDevices(serve)
      modifies this`attachRetryAt, this`trace, batteries, uhid
      ensures Valid()
      ensures View() == old(View()).Wait(serve, 0)
      ensures exists n: nat :: serve(n, |batteries.devices|) == if ok then Done else WaitFailed
    {
      var n: nat := 0;
      while true
        invariant Valid()
        invariant View().Wait(serve, n) == old(View()).Wait(serve, 0)
        decreases Strikes(batteries.states)
      {
        var served := serve(n, |batteries.devices|);
        if !served.DeviceFailed? {
          return served.Done?;
        }
        OutcomeIsAStrike(View(), served.index, served.at);
        var _ := Outcome(served.index, false, served.at);
        n := n + 1;
      }
    }

    /** Removes every virtual battery; the handles are dropped, not kept. */
    method Shutdown() returns (dropped: seq<Handle>)
      requires Valid()
      modifies batteries
      ensures Valid() && batteries.devices == [] && batteries.states == []
      ensures dropped == Handles(old(batteries.devices))
    {
      var drained := batteries.Drain();
      dropped := [];
      for i := 0 to |drained|
        invariant dropped == Handles(drained[..i])
      {
        dropped := dropped + [drained[i].handle];
      }
      assert drained[..|drained|] == drained;
    }
  }

  /** The first `seen` batteries have been judged, `index` of them kept; the others are as they were. */
  ghost predicate ExpiredSoFar(was: BridgeState, seen: nat, index: nat, after: BridgeState, now: nat, config: Config)
    requires was.Aligned()
  {
    && seen <= |was.states|
    && var devices, states := was.devices[..seen], was.states[..seen];
      && index == |KeptStates(states, now, config)| == |DevicesBy(true, devices, states, now, config)|
      && after == was.(
                    states := KeptStates(states, now, config) + was.states[seen..],
                    devices := DevicesBy(true, devices, states, now, config) + was.devices[seen..],
                    pool := was.pool.(
                      spare := was.pool.spare + Handles(DevicesBy(false, devices, states, now, config))))
  }

  lemma NothingExpired(was: BridgeState, now: nat, config: Config)
    requires was.Aligned()
    ensures ExpiredSoFar(was, 0, 0, was, now, config)
  {
  }

  lemma {:induction false} AllExpired(
    was: BridgeState, seen: nat, index: nat, after: BridgeState, now: nat, config: Config)
    requires was.Aligned() && ExpiredSoFar(was, seen, index, after, now, config) && |after.states| <= index
    ensures after == was.Expire(now, config)
  {
    assert |after.states| == index + |was.states| - seen;
    assert was.states[..seen] == was.states && was.devices[..seen] == was.devices;
  }

  /** Judging one more battery. */
  lemma {:induction false} ExpireOne(
    was: BridgeState, seen: nat, index: nat, after: BridgeState, now: nat, config: Config)
    requires was.Aligned() && after.Aligned() && ExpiredSoFar(was, seen, index, after, now, config)
    requires index < |after.states|
    ensures seen < |was.states| && after.states[index] == was.states[seen]
    ensures if after.states[index].Withdrawn(now, config).Keep? then
              ExpiredSoFar(was, seen + 1, index + 1, after, now, config)
            else
              ExpiredSoFar(was, seen + 1, index, after.Release(index), now, config)
  {
    JudgeOneMore(was.devices, was.states, seen, now, config);
    if was.states[seen].Withdrawn(now, config).Keep? {
      KeepOne(was, seen, index, after, now, config);
    } else {
      ReleaseOne(was, seen, index, after, now, config);
    }
  }

  lemma {:induction false} JudgeOneMore(
    devices: seq<Device>, states: seq<VirtualBattery>, n: nat, now: nat, config: Config)
    requires n < |devices| == |states|
    ensures var keep := states[n].Withdrawn(now, config).Keep?;
      && KeptStates(states[..n + 1], now, config)
         == KeptStates(states[..n], now, config) + (if keep then [states[n]] else [])
      && DevicesBy(true, devices[..n + 1], states[..n + 1], now, config)
         == DevicesBy(true, devices[..n], states[..n], now, config) + (if keep then [devices[n]] else [])
      && DevicesBy(false, devices[..n + 1], states[..n + 1], now, config)
         == DevicesBy(false, devices[..n], states[..n], now, config) + (if keep then [] else [devices[n]])
  {
    assert states[..n + 1][..n] == states[..n] && devices[..n + 1][..n] == devices[..n];
  }

  lemma {:induction false} KeepOne(
    was: BridgeState, seen: nat, index: nat, after: BridgeState, now: nat, config: Config)
    requires was.Aligned() && ExpiredSoFar(was, seen, index, after, now, config) && seen < |was.states|
    requires was.states[seen].Withdrawn(now, config).Keep?
    ensures ExpiredSoFar(was, seen + 1, index + 1, after, now, config)
  {
    JudgeOneMore(was.devices, was.states, seen, now, config);
    OneMoreKept(KeptStates(was.states[..seen], now, config), was.states, seen);
    OneMoreKept(DevicesBy(true, was.devices[..seen], was.states[..seen], now, config), was.devices, seen);
    assert Handles(DevicesBy(false, was.devices[..seen + 1], was.states[..seen + 1], now, config))
        == Handles(DevicesBy(false, was.devices[..seen], was.states[..seen], now, config));
  }

  lemma OneMoreKept<T>(kept: seq<T>, all: seq<T>, n: nat)
    requires n < |all|
    ensures kept + all[n..] == kept + [all[n]] + all[n + 1..]
  {
  }

  lemma {:induction false} ReleaseOne(
    was: BridgeState, seen: nat, index: nat, after: BridgeState, now: nat, config: Config)
    requires was.Aligned() && after.Aligned() && ExpiredSoFar(was, seen, index, after, now, config)
    requires seen < |was.states|
    requires !was.states[seen].Withdrawn(now, config).Keep?
    ensures ExpiredSoFar(was, seen + 1, index, after.Release(index), now, config)
  {
    JudgeOneMore(was.devices, was.states, seen, now, config);
    var gone := DevicesBy(false, was.devices[..seen], was.states[..seen], now, config);
    assert RemoveAt(after.states, index) == KeptStates(was.states[..seen], now, config) + was.states[seen + 1..];
    assert RemoveAt(after.devices, index)
        == DevicesBy(true, was.devices[..seen], was.states[..seen], now, config) + was.devices[seen + 1..];
    assert Handles(gone + [was.devices[seen]]) == Handles(gone) + [was.devices[seen].handle];
  }
}
