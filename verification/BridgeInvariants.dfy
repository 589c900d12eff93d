/**
 What every step of the bridge keeps: devices and bookkeeping in step, one entry per headset,
 none of them barred, and every handle accounted for.
 */
module BridgeInvariants {
  import opened Prelude
  import opened Headsets
  import opened Policy
  import opened BridgeStates

  ghost predicate Inv(s: BridgeState) {
    && s.Aligned()
    && (forall i :: 0 <= i < |s.states| ==> s.devices[i].owner == s.states[i].key)
    && (forall i, j :: 0 <= i < j < |s.states| ==> s.states[i].key != s.states[j].key)
    && (forall i :: 0 <= i < |s.states| ==>
          && s.states[i].key !in s.abandoned
          && s.states[i].key !in s.retryAt
          && s.states[i].failures < DEVICE_FAILURE_LIMIT)
  }

  lemma ReleaseKeepsInv(s: BridgeState, index: nat)
    requires Inv(s) && index < |s.devices|
    ensures Inv(s.Release(index))
    ensures forall i :: 0 <= i < |s.Release(index).states| ==> s.Release(index).states[i].key != s.states[index].key
  {
  }

  lemma OutcomeKeepsInv(s: BridgeState, index: nat, ok: bool, now: nat)
    requires Inv(s) && index < |s.devices|
    ensures Inv(s.Outcome(index, ok, now))
  {
    if !ok && s.states[index].failures + 1 >= DEVICE_FAILURE_LIMIT {
      ReleaseKeepsInv(s, index);
    }
  }

  lemma UpdateKeepsInv(s: BridgeState, index: nat, reading: Reading, sample: Option<nat>, now: nat, pushed: bool)
    requires Inv(s) && index < |s.devices|
    ensures Inv(s.Update(index, reading, sample, now, pushed))
  {
    var battery := s.states[index].(lastReading := now, goneSince := None);
    var (record, vetted) := Vetted(battery.record, s.devices[index].reading, reading, sample);
    if vetted.Some? {
      var push := s.Taken(index, reading, sample, now).Push(index, battery.(record := record), vetted.value, now);
      assert Inv(push);
      OutcomeKeepsInv(push, index, pushed, now);
    }
  }

  lemma GoneKeepsInv(s: BridgeState, index: nat, now: nat)
    requires Inv(s) && index < |s.devices|
    ensures Inv(s.Gone(index, now))
  {
    var battery := s.states[index];
    var since := if battery.goneSince.Some? then battery.goneSince.value else now;
    var noted := s.(states := s.states[index := battery.(goneSince := Some(since))]);
    assert Inv(noted);
    ReleaseKeepsInv(noted, index);
  }

  lemma AttachKeepsInv(s: BridgeState, headset: Headset, reading: Reading, now: nat, io: Io)
    requires Inv(s) && Position(s.states, headset.Key()).None?
    ensures Inv(s.AttachIfAllowed(headset, reading, now, io))
  {
    AttachAddsOne(s, headset, reading, now, io);
  }

  lemma AttachAddsOne(s: BridgeState, headset: Headset, reading: Reading, now: nat, io: Io)
    requires s.Aligned()
    ensures var (after, result) := s.Attach(headset, reading, now, io);
      && (after.retryAt, after.abandoned) == (s.retryAt, s.abandoned) && after.Aligned()
      && s.devices <= after.devices
      && if result == Attached then
           after.states == s.states + [NewBattery(headset.Key(), reading, now)]
           && after.devices[|s.devices|].owner == headset.Key()
         else
           after.states == s.states
  {
  }

  lemma {:induction false} ApplyKeepsInv(s: BridgeState, headset: Headset, now: nat, io: Io)
    requires Inv(s)
    ensures Inv(s.Apply(headset, now, io))
  {
    var existing := Position(s.states, headset.Key());
    var seen := s.Seen(headset.Key(), now);
    assert Inv(seen);
    var reading := s.ReadingOf(headset);
    if existing.Some? {
      if reading.Some? {
        UpdateKeepsInv(seen, existing.value, reading.value, headset.sample, now, io.pushed);
      } else {
        GoneKeepsInv(seen, existing.value, now);
      }
    } else if reading.Some? {
      AttachKeepsInv(seen, headset, reading.value, now, io);
    }
  }

  lemma {:induction false} ConsiderAllKeepsInv(s: BridgeState, visits: seq<Visit>, now: nat)
    requires Inv(s)
    ensures Inv(s.ConsiderAll(visits, now))
    decreases |visits|
  {
    if visits == [] {
    } else {
      var n := |visits| - 1;
      ConsiderAllKeepsInv(s, visits[..n], now);
      ApplyKeepsInv(s.ConsiderAll(visits[..n], now), visits[n].headset, now, visits[n].io);
    }
  }

  /** Where the k-th battery kept was before. */
  lemma {:induction false} KeptFrom(
    devices: seq<Device>, states: seq<VirtualBattery>, now: nat, config: Config, k: nat) returns (i: nat)
    requires |devices| == |states| && k < |KeptStates(states, now, config)|
    ensures |DevicesBy(true, devices, states, now, config)| == |KeptStates(states, now, config)|
    ensures k <= i < |states|
    ensures KeptStates(states, now, config)[k] == states[i]
    ensures DevicesBy(true, devices, states, now, config)[k] == devices[i]
    ensures states[i].Withdrawn(now, config).Keep?
    decreases |states|
  {
    var n := |states| - 1;
    var before := KeptStates(states[..n], now, config);
    KeptAligned(devices[..n], states[..n], now, config);
    if k < |before| {
      i := KeptFrom(devices[..n], states[..n], now, config, k);
    } else {
      KeptIsNoLonger(states[..n], now, config);
      i := n;
    }
  }

  lemma {:induction false} KeptAligned(devices: seq<Device>, states: seq<VirtualBattery>, now: nat, config: Config)
    requires |devices| == |states|
    ensures |DevicesBy(true, devices, states, now, config)| == |KeptStates(states, now, config)|
    decreases |states|
  {
    if states == [] {
    } else {
      KeptAligned(devices[..|states| - 1], states[..|states| - 1], now, config);
    }
  }

  lemma {:induction false} KeptIsNoLonger(states: seq<VirtualBattery>, now: nat, config: Config)
    ensures |KeptStates(states, now, config)| <= |states|
    decreases |states|
  {
    if states == [] {
    } else {
      KeptIsNoLonger(states[..|states| - 1], now, config);
    }
  }

  /** The order is kept: two batteries kept were two batteries before. */
  lemma {:induction false} KeptKeysAreDistinct(states: seq<VirtualBattery>, now: nat, config: Config)
    requires forall i, j :: 0 <= i < j < |states| ==> states[i].key != states[j].key
    ensures var kept := KeptStates(states, now, config);
      && (forall i, j :: 0 <= i < j < |kept| ==> kept[i].key != kept[j].key)
      && (forall b <- kept :: b in states)
    decreases |states|
  {
    if states == [] {
    } else {
      var n := |states| - 1;
      KeptKeysAreDistinct(states[..n], now, config);
      assert forall b <- KeptStates(states[..n], now, config) :: b.key != states[n].key;
    }
  }

  lemma ExpireKeepsInv(s: BridgeState, now: nat, config: Config)
    requires Inv(s)
    ensures Inv(s.Expire(now, config))
  {
    var after := s.Expire(now, config);
    KeptAligned(s.devices, s.states, now, config);
    KeptKeysAreDistinct(s.states, now, config);
    forall k | 0 <= k < |after.states|
      ensures after.devices[k].owner == after.states[k].key
      ensures after.states[k].key !in s.abandoned && after.states[k].key !in s.retryAt
      ensures after.states[k].failures < DEVICE_FAILURE_LIMIT
    {
      var i := KeptFrom(s.devices, s.states, now, config, k);
    }
  }

  lemma TickKeepsInv(s: BridgeState, visits: seq<Visit>, now: nat, config: Config)
    requires Inv(s)
    ensures Inv(s.Tick(visits, now, config))
  {
    ConsiderAllKeepsInv(s, visits, now);
    var noted := s.ConsiderAll(visits, now).NoteAll(now);
    assert Inv(noted);
    ExpireKeepsInv(noted, now, config);
  }

  lemma {:induction false} WaitKeepsInv(s: BridgeState, serve: Serving, n: nat)
    requires Inv(s) && NamesLiveDevices(serve)
    ensures Inv(s.Wait(serve, n))
    decreases Strikes(s.states)
  {
    var served := serve(n, |s.devices|);
    if served.DeviceFailed? {
      OutcomeIsAStrike(s, served.index, served.at);
      OutcomeKeepsInv(s, served.index, false, served.at);
      WaitKeepsInv(s.Outcome(served.index, false, served.at), serve, n + 1);
    }
  }

  // ----- Waiting ends -----

  lemma {:induction false} StrikesAreFew(states: seq<VirtualBattery>)
    ensures |states| <= Strikes(states) <= DEVICE_FAILURE_LIMIT * |states|
    decreases |states|
  {
    if states == [] {
    } else {
      StrikesAreFew(states[..|states| - 1]);
    }
  }

  /**
   A wait handles at most three failures per battery, however the kernel behaves: the strikes
   left to the batteries strictly decrease, so it ends.
   */
  lemma {:induction false} WaitHandlesFewFailures(s: BridgeState, serve: Serving, n: nat)
    requires s.Aligned() && NamesLiveDevices(serve)
    ensures s.FailuresServed(serve, n) + Strikes(s.Wait(serve, n).states) <= Strikes(s.states)
    ensures s.FailuresServed(serve, n) <= DEVICE_FAILURE_LIMIT * |s.states|
    decreases Strikes(s.states)
  {
    StrikesAreFew(s.states);
    var served := serve(n, |s.devices|);
    if served.DeviceFailed? {
      OutcomeIsAStrike(s, served.index, served.at);
      WaitHandlesFewFailures(s.Outcome(served.index, false, served.at), serve, n + 1);
    }
  }

  ghost predicate IsLive(s: BridgeState, key: HeadsetKey) {
    exists b <- s.states :: b.key == key
  }

  lemma OutcomeLosesNobody(s: BridgeState, index: nat, now: nat, key: HeadsetKey)
    requires s.Aligned() && index < |s.devices| && (IsLive(s, key) || key in s.retryAt)
    ensures IsLive(s.Outcome(index, false, now), key) || key in s.Outcome(index, false, now).retryAt
  {
    var after := s.Outcome(index, false, now);
    if IsLive(s, key) {
      var i :| 0 <= i < |s.states| && s.states[i].key == key;
      if |after.states| == |s.states| {
        assert after.states[i].key == key && after.states[i] in after.states;
      } else if i != index {
        assert after.states[if i < index then i else i - 1] == s.states[i];
      }
    }
  }

  /** A battery that does not outlive a wait has a time at which to try again. */
  lemma {:induction false} WaitLosesNobody(s: BridgeState, serve: Serving, n: nat, key: HeadsetKey)
    requires Inv(s) && NamesLiveDevices(serve) && (IsLive(s, key) || key in s.retryAt)
    ensures IsLive(s.Wait(serve, n), key) <==> key !in s.Wait(serve, n).retryAt
    decreases Strikes(s.states)
  {
    var served := serve(n, |s.devices|);
    if served.DeviceFailed? {
      OutcomeIsAStrike(s, served.index, served.at);
      OutcomeKeepsInv(s, served.index, false, served.at);
      OutcomeLosesNobody(s, served.index, served.at, key);
      WaitLosesNobody(s.Outcome(served.index, false, served.at), serve, n + 1, key);
    }
  }

  // ----- Every handle is accounted for -----

  /** The handles there are: spare, or with a device. */
  function Held(s: BridgeState): multiset<Handle> {
    multiset(s.pool.spare) + multiset(Handles(s.devices))
  }

  function OwnHandles(n: nat): multiset<Handle> {
    if n == 0 then multiset{} else OwnHandles(n - 1) + multiset{Own(n - 1)}
  }

  lemma HandlesOfRemoval(devices: seq<Device>, i: nat)
    requires i < |devices|
    ensures multiset(Handles(devices)) == multiset(Handles(RemoveAt(devices, i))) + multiset{devices[i].handle}
  {
    var hs := Handles(devices);
    assert hs == hs[..i] + [hs[i]] + hs[i + 1..];
    assert Handles(RemoveAt(devices, i)) == hs[..i] + hs[i + 1..];
  }

  lemma HandlesSplit(first: seq<Device>, rest: seq<Device>)
    ensures Handles(first + rest) == Handles(first) + Handles(rest)
  {
  }

  /** Nothing was opened, and no handle was lost. */
  ghost predicate SameHandles(s: BridgeState, after: BridgeState) {
    && Held(after) == Held(s)
    && (after.pool.mayOpen, after.pool.everOpened, after.peak) == (s.pool.mayOpen, s.pool.everOpened, s.peak)
  }

  lemma ReleaseKeepsHandles(s: BridgeState, index: nat)
    requires s.Aligned() && index < |s.devices|
    ensures SameHandles(s, s.Release(index))
  {
    HandlesOfRemoval(s.devices, index);
  }

  lemma OutcomeKeepsHandles(s: BridgeState, index: nat, ok: bool, now: nat)
    requires s.Aligned() && index < |s.devices|
    ensures SameHandles(s, s.Outcome(index, ok, now))
  {
    ReleaseKeepsHandles(s, index);
  }

  lemma UpdateKeepsHandles(s: BridgeState, index: nat, reading: Reading, sample: Option<nat>, now: nat, pushed: bool)
    requires s.Aligned() && index < |s.devices|
    ensures SameHandles(s, s.Update(index, reading, sample, now, pushed))
  {
    var battery := s.states[index].(lastReading := now, goneSince := None);
    var (record, vetted) := Vetted(battery.record, s.devices[index].reading, reading, sample);
    if vetted.Some? {
      var push := s.Taken(index, reading, sample, now).Push(index, battery.(record := record), vetted.value, now);
      assert Handles(push.devices) == Handles(s.devices);
      OutcomeKeepsHandles(push, index, pushed, now);
    }
  }

  lemma GoneKeepsHandles(s: BridgeState, index: nat, now: nat)
    requires s.Aligned() && index < |s.devices|
    ensures SameHandles(s, s.Gone(index, now))
  {
    var battery := s.states[index];
    var since := if battery.goneSince.Some? then battery.goneSince.value else now;
    ReleaseKeepsHandles(s.(states := s.states[index := battery.(goneSince := Some(since))]), index);
  }

  /** A handle comes from the spare ones, or is opened when there are none. */
  lemma AcquireTakesOne(pool: PoolState, opens: bool)
    ensures var (taken, handle) := pool.Acquire(opens);
      && taken.mayOpen == pool.mayOpen
      && (handle.None? ==> taken == pool)
      && (handle.Some? && taken.everOpened == pool.everOpened ==>
            pool.spare != [] && multiset(pool.spare) == multiset(taken.spare) + multiset{handle.value})
      && (taken.everOpened != pool.everOpened ==>
            && pool.mayOpen && pool.spare == taken.spare == []
            && taken.everOpened == pool.everOpened + 1 && handle == Some(Own(pool.everOpened)))
  {
    var spare := pool.spare;
    if spare != [] {
      assert spare == spare[..|spare| - 1] + [spare[|spare| - 1]];
    }
  }

  /** Whatever comes of it, an attempt ends with the handle back among the spare ones, or in use. */
  lemma AttachKeepsTheHandle(s: BridgeState, headset: Headset, reading: Reading, now: nat, io: Io)
    ensures var after := s.Attach(headset, reading, now, io).0;
      var (taken, handle) := s.pool.Acquire(io.opens);
      && (handle.None? ==> Held(after) == Held(s) && after.peak == s.peak && after.pool == s.pool)
      && (handle.Some? ==>
            && Held(after) == multiset(taken.spare) + multiset(Handles(s.devices)) + multiset{handle.value}
            && (after.pool.mayOpen, after.pool.everOpened) == (taken.mayOpen, taken.everOpened)
            && after.peak == if s.peak <= |s.devices| then |s.devices| + 1 else s.peak)
  {
    var (after, result) := s.Attach(headset, reading, now, io);
    var handle := s.pool.Acquire(io.opens).1;
    if result.Attached? {
      var device := Device(handle.value, headset.Key(), reading);
      HandlesSplit(s.devices, [device]);
      assert Handles([device]) == [handle.value];
    }
  }

  /** What is known of the pool: nothing was opened, or all there is was, and only when needed. */
  ghost predicate Accounted(s: BridgeState, inherited: multiset<Handle>) {
    && Held(s) == inherited + OwnHandles(s.pool.everOpened)
    && (if s.pool.mayOpen then inherited == multiset{} && s.peak == s.pool.everOpened else s.pool.everOpened == 0)
  }

  lemma {:induction false} OwnHandlesCount(n: nat)
    ensures |OwnHandles(n)| == n
  {
    if n == 0 {
    } else {
      OwnHandlesCount(n - 1);
    }
  }

  lemma {:induction false} AttachIsAccounted(
    s: BridgeState, headset: Headset, reading: Reading, now: nat, io: Io, inherited: multiset<Handle>)
    requires Accounted(s, inherited)
    ensures Accounted(s.Attach(headset, reading, now, io).0, inherited)
  {
    AcquireTakesOne(s.pool, io.opens);
    AttachKeepsTheHandle(s, headset, reading, now, io);
    LiveAreFewerThanOpened(s, inherited);
  }

  lemma {:induction false} LiveAreFewerThanOpened(s: BridgeState, inherited: multiset<Handle>)
    requires Accounted(s, inherited)
    ensures s.pool.mayOpen ==> |s.pool.spare| + |s.devices| == s.pool.everOpened
  {
    OwnHandlesCount(s.pool.everOpened);
    assert |Held(s)| == |s.pool.spare| + |s.devices|;
  }

  lemma {:induction false} AttachIfAllowedIsAccounted(
    s: BridgeState, headset: Headset, reading: Reading, now: nat, io: Io, inherited: multiset<Handle>)
    requires Accounted(s, inherited)
    ensures Accounted(s.AttachIfAllowed(headset, reading, now, io), inherited)
  {
    AttachIsAccounted(s, headset, reading, now, io, inherited);
    OnlyAttachMovesHandles(s, headset, reading, now, io);
  }

  lemma OnlyAttachMovesHandles(s: BridgeState, headset: Headset, reading: Reading, now: nat, io: Io)
    ensures var attached, after := s.Attach(headset, reading, now, io).0, s.AttachIfAllowed(headset, reading, now, io);
      after == s || (after.devices, after.pool, after.peak) == (attached.devices, attached.pool, attached.peak)
  {
  }

  lemma {:induction false} ApplyIsAccounted(
    s: BridgeState, headset: Headset, now: nat, io: Io, inherited: multiset<Handle>)
    requires s.Aligned() && Accounted(s, inherited)
    ensures Accounted(s.Apply(headset, now, io), inherited)
  {
    var existing := Position(s.states, headset.Key());
    var seen := s.Seen(headset.Key(), now);
    assert SameHandles(s, seen) && Accounted(seen, inherited);
    var reading := s.ReadingOf(headset);
    if existing.Some? {
      if reading.Some? {
        UpdateKeepsHandles(seen, existing.value, reading.value, headset.sample, now, io.pushed);
      }
      GoneKeepsHandles(seen, existing.value, now);
    } else if reading.Some? {
      AttachIfAllowedIsAccounted(seen, headset, reading.value, now, io, inherited);
    }
  }

  lemma {:induction false} ConsiderAllIsAccounted(
    s: BridgeState, visits: seq<Visit>, now: nat, inherited: multiset<Handle>)
    requires s.Aligned() && Accounted(s, inherited)
    ensures Accounted(s.ConsiderAll(visits, now), inherited)
    decreases |visits|
  {
    if visits == [] {
    } else {
      var n := |visits| - 1;
      ConsiderAllIsAccounted(s, visits[..n], now, inherited);
      ApplyIsAccounted(s.ConsiderAll(visits[..n], now), visits[n].headset, now, visits[n].io, inherited);
    }
  }

  lemma {:induction false} ExpireKeepsHandles(
    devices: seq<Device>, states: seq<VirtualBattery>, now: nat, config: Config)
    requires |devices| == |states|
    ensures multiset(Handles(devices)) == multiset(Handles(DevicesBy(true, devices, states, now, config)))
                                        + multiset(Handles(DevicesBy(false, devices, states, now, config)))
    decreases |devices|
  {
    if devices == [] {
    } else {
      var n := |devices| - 1;
      var kept := DevicesBy(true, devices[..n], states[..n], now, config);
      var gone := DevicesBy(false, devices[..n], states[..n], now, config);
      ExpireKeepsHandles(devices[..n], states[..n], now, config);
      assert devices == devices[..n] + [devices[n]];
      HandlesSplit(devices[..n], [devices[n]]);
      HandlesSplit(kept, [devices[n]]);
      HandlesSplit(gone, [devices[n]]);
      assert kept + [] == kept && gone + [] == gone;
    }
  }

  lemma TickIsAccounted(s: BridgeState, visits: seq<Visit>, now: nat, config: Config, inherited: multiset<Handle>)
    requires s.Aligned() && Accounted(s, inherited)
    ensures Accounted(s.Tick(visits, now, config), inherited)
  {
    ConsiderAllIsAccounted(s, visits, now, inherited);
    ExpireIsAccounted(s.ConsiderAll(visits, now).NoteAll(now), now, config, inherited);
  }

  lemma ExpireIsAccounted(s: BridgeState, now: nat, config: Config, inherited: multiset<Handle>)
    requires s.Aligned() && Accounted(s, inherited)
    ensures Accounted(s.Expire(now, config), inherited)
  {
    ExpireKeepsHandles(s.devices, s.states, now, config);
  }

  lemma {:induction false} WaitIsAccounted(s: BridgeState, serve: Serving, n: nat, inherited: multiset<Handle>)
    requires s.Aligned() && NamesLiveDevices(serve) && Accounted(s, inherited)
    ensures Accounted(s.Wait(serve, n), inherited)
    decreases Strikes(s.states)
  {
    var served := serve(n, |s.devices|);
    if served.DeviceFailed? {
      OutcomeIsAStrike(s, served.index, served.at);
      OutcomeKeepsHandles(s, served.index, false, served.at);
      WaitIsAccounted(s.Outcome(served.index, false, served.at), serve, n + 1, inherited);
    }
  }
}
