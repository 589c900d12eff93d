/**
 What each step of the bridge does (src/bridge/mod.rs), on values: the virtual batteries with
 their devices, the pool of handles, and which headsets are not to be attached for now.
 */
module BridgeStates {
  import opened Prelude
  import opened Headsets
  import opened Policy

  const ATTACH_RETRY: nat := 60 * SECOND
  const DEVICE_FAILURE_LIMIT: nat := 3
  const DISCONNECT_SETTLE: nat := 3 * SECOND
  const REPUBLISH_EVERY: nat := 60 * SECOND
  const LOG_STEP: nat := 5

  /** A handle on the uhid node: inherited at the start, or the n-th opened here. */
  datatype Handle = Inherited(id: nat) | Own(n: nat)

  /** A device the kernel knows, made for the headset `owner`. */
  datatype Device = Device(handle: Handle, owner: HeadsetKey, reading: Reading)

  /** The bookkeeping about one virtual battery: when it was heard of, and what vetting remembers. */
  datatype VirtualBattery = VirtualBattery(
    key: HeadsetKey,
    lastReading: nat,
    lastSeen: nat,
    silentSince: Option<nat>,
    missingSince: Option<nat>,
    goneSince: Option<nat>,
    record: Record,
    loggedPercent: nat,
    publishedAt: nat,
    failures: nat)
  {
    /** The clocks after a poll at `now`. */
    function Noted(now: nat): VirtualBattery {
      this.(silentSince := Note(silentSince, lastReading == now, now),
            missingSince := Note(missingSince, lastSeen == now, now))
    }

    function Withdrawn(now: nat, config: Config): Withdrawal {
      Withdraw(
        if silentSince.Some? then Since(now, silentSince.value) else 0,
        if missingSince.Some? then Since(now, missingSince.value) else 0,
        config)
    }
  }

  datatype Create = Created | IdentityRefused | CreateFailed

  datatype Supply = Registered | NoSupply | SupplyFailed

  /** What the kernel does about one headset: to an open, a creation, a registration, a push. */
  datatype Io = Io(opens: bool, create: Create, supply: Supply, pushed: bool)

  /** A headset a poll reports, and what the kernel does about it. */
  datatype Visit = Visit(headset: Headset, io: Io)

  datatype AttachResult = Attached | Retry | GiveUp

  /** How one round of serving every device ends; `at` is when a failure is looked at. */
  datatype Served = Done | WaitFailed | DeviceFailed(index: nat, at: nat)

  /** What the n-th round of serving `live` devices ends in: a failure names one of them. */
  type Serving = (nat, nat) -> Served

  ghost predicate NamesLiveDevices(serve: Serving) {
    forall n: nat, live: nat :: serve(n, live).DeviceFailed? ==> serve(n, live).index < live
  }

  /**
   A trace of what matters outside: attempts to create a device, and those that succeed, with the
   reading it starts from; what bars the next; the readings a battery takes in; pushes, with the
   reading known before; how talking to a device went, and whether the battery survived that.
   */
  datatype Event =
    | Attempted(key: HeadsetKey, at: nat)
    | Made(key: HeadsetKey, at: nat, reading: Reading)
    | Barred(key: HeadsetKey, at: nat)
    | Abandoned(key: HeadsetKey)
    | Read(key: HeadsetKey, at: nat, reading: Reading, sample: Option<nat>)
    | Pushed(key: HeadsetKey, at: nat, known: Reading, reading: Reading)
    | Talked(key: HeadsetKey, at: nat, ok: bool, alive: bool)

  function RemoveAt<T>(s: seq<T>, i: nat): seq<T>
    requires i < |s|
  {
    s[..i] + s[i + 1..]
  }

  /** Where the headset with this key has its battery, if it has one. */
  function Position(states: seq<VirtualBattery>, key: HeadsetKey): (found: Option<nat>)
    ensures found.Some? ==> found.value < |states| && states[found.value].key == key
    ensures found.Some? ==> forall i :: 0 <= i < found.value ==> states[i].key != key
    ensures found.None? ==> forall i :: 0 <= i < |states| ==> states[i].key != key
  {
    if states == [] then
      None
    else
      var n := |states| - 1;
      var before := Position(states[..n], key);
      if before.Some? then before
      else if states[n].key == key then Some(n)
      else None
  }

  datatype PoolState = PoolState(spare: seq<Handle>, mayOpen: bool, everOpened: nat)
  {
    /** The last handle put back, or else a new one, if that may be and can be opened. */
    function Acquire(opens: bool): (PoolState, Option<Handle>) {
      if spare != [] then
        (this.(spare := spare[..|spare| - 1]), Some(spare[|spare| - 1]))
      else if mayOpen && opens then
        (this.(everOpened := everOpened + 1), Some(Own(everOpened)))
      else
        (this, None)
    }

    function PutBack(handle: Handle): PoolState {
      this.(spare := spare + [handle])
    }
  }

  function KeptStates(states: seq<VirtualBattery>, now: nat, config: Config): seq<VirtualBattery> {
    if states == [] then
      []
    else
      var n := |states| - 1;
      KeptStates(states[..n], now, config) + if states[n].Withdrawn(now, config).Keep? then [states[n]] else []
  }

  /** The devices whose battery is kept - or is not. */
  function DevicesBy(
    keep: bool, devices: seq<Device>, states: seq<VirtualBattery>, now: nat, config: Config): seq<Device>
    requires |devices| == |states|
  {
    if devices == [] then
      []
    else
      var n := |devices| - 1;
      DevicesBy(keep, devices[..n], states[..n], now, config)
      + if states[n].Withdrawn(now, config).Keep? == keep then [devices[n]] else []
  }

  function Handles(devices: seq<Device>): seq<Handle> {
    seq(|devices|, i requires 0 <= i < |devices| => devices[i].handle)
  }

  function Strikes(states: seq<VirtualBattery>): nat {
    if states == [] then
      0
    else
      var failures := states[|states| - 1].failures;
      Strikes(states[..|states| - 1])
      + if failures < DEVICE_FAILURE_LIMIT then DEVICE_FAILURE_LIMIT - failures else 1
  }

  /** `peak` is how many handles were ever held at once, by devices and by one being created. */
  datatype BridgeState = BridgeState(
    devices: seq<Device>,
    states: seq<VirtualBattery>,
    pool: PoolState,
    retryAt: map<HeadsetKey, nat>,
    abandoned: set<HeadsetKey>,
    trace: seq<Event>,
    peak: nat)
  {
    ghost predicate Aligned() {
      |devices| == |states|
    }

    function Seen(key: HeadsetKey, now: nat): BridgeState {
      var existing := Position(states, key);
      if existing.None? then
        this
      else
        this.(states := states[existing.value := states[existing.value].(lastSeen := now)])
    }

    /** Takes a battery out, withdraws its device and keeps the handle. */
    function Release(index: nat): BridgeState
      requires Aligned() && index < |devices|
    {
      this.(devices := RemoveAt(devices, index),
            states := RemoveAt(states, index),
            pool := pool.PutBack(devices[index].handle))
    }

    /** Clears or counts a strike against the device at `index`, and releases it on the third. */
    function Outcome(index: nat, ok: bool, now: nat): BridgeState
      requires Aligned() && index < |devices|
    {
      var battery := states[index];
      var alive := ok || battery.failures + 1 < DEVICE_FAILURE_LIMIT;
      var talked := this.(trace := trace + [Talked(battery.key, now, ok, alive)]);
      if ok then
        talked.(states := states[index := battery.(failures := 0)])
      else if alive then
        talked.(states := states[index := battery.(failures := battery.failures + 1)])
      else
        talked.Release(index).(retryAt := retryAt[battery.key := now + ATTACH_RETRY],
                               trace := talked.trace + [Barred(battery.key, now)])
    }

    /** Tries to make a device for a headset; every failure gives the handle back. */
    function Attach(headset: Headset, reading: Reading, now: nat, io: Io): (BridgeState, AttachResult) {
      var tried := this.(trace := trace + [Attempted(headset.Key(), now)]);
      var (taken, handle) := pool.Acquire(io.opens);
      if handle.None? then
        (tried, Retry)
      else
        var held := tried.(pool := taken, peak := if peak <= |devices| then |devices| + 1 else peak);
        if io.create != Created || io.supply != Registered then
          (held.(pool := taken.PutBack(handle.value)),
           if io.create == IdentityRefused then GiveUp else Retry)
        else
          (held.(devices := devices + [Device(handle.value, headset.Key(), reading)],
                 states := states + [NewBattery(headset.Key(), reading, now)],
                 trace := held.trace + [Made(headset.Key(), now, reading)]),
           Attached)
    }

    /** Tries to attach, unless a failure bars that for now or for good. */
    function AttachIfAllowed(headset: Headset, reading: Reading, now: nat, io: Io): BridgeState {
      var key := headset.Key();
      if (key in retryAt && now < retryAt[key]) || key in abandoned then
        this
      else
        match Attach(headset, reading, now, io)
        case (after, Attached) => after.(retryAt := retryAt - {key})
        case (after, Retry) =>
          after.(retryAt := retryAt[key := now + ATTACH_RETRY], trace := after.trace + [Barred(key, now)])
        case (after, GiveUp) =>
          after.(abandoned := abandoned + {key}, trace := after.trace + [Abandoned(key)])
    }

    /** Takes in a level of a headset that has a battery, and pushes it if that is due. */
    function Update(index: nat, reading: Reading, sample: Option<nat>, now: nat, pushed: bool): (after: BridgeState)
      requires Aligned() && index < |devices|
      ensures after.Aligned()
    {
      var device := devices[index];
      var battery := states[index].(lastReading := now, goneSince := None);
      var (record, vetted) := Vetted(battery.record, device.reading, reading, sample);
      var vetting := battery.(record := record);
      var read := Taken(index, reading, sample, now);
      if vetted.None? || (vetted.value == device.reading && Since(now, battery.publishedAt) < REPUBLISH_EVERY) then
        read.(states := states[index := vetting])
      else
        read.Push(index, vetting, vetted.value, now).Outcome(index, pushed, now)
    }

    /** With the reading in the trace. */
    function Taken(index: nat, reading: Reading, sample: Option<nat>, now: nat): BridgeState
      requires index < |states|
    {
      this.(trace := trace + [Read(states[index].key, now, reading, sample)])
    }

    function Push(index: nat, battery: VirtualBattery, reading: Reading, now: nat): BridgeState
      requires Aligned() && index < |devices|
    {
      var known := devices[index].reading;
      var logged :=
        if known != reading
           && (known.charging != reading.charging || AbsDiff(battery.loggedPercent, reading.percent) >= LOG_STEP)
        then reading.percent
        else battery.loggedPercent;
      this.(devices := devices[index := devices[index].(reading := reading)],
            states := states[index := battery.(loggedPercent := logged, publishedAt := now)],
            trace := trace + [Pushed(battery.key, now, known, reading)])
    }

    /** The headset is reported gone: believed once that has lasted. */
    function Gone(index: nat, now: nat): (after: BridgeState)
      requires Aligned() && index < |devices|
      ensures after.Aligned()
    {
      var battery := states[index];
      var since := if battery.goneSince.Some? then battery.goneSince.value else now;
      var noted := this.(states := states[index := battery.(goneSince := Some(since))]);
      if Since(now, since) >= DISCONNECT_SETTLE then noted.Release(index) else noted
    }

    /** The reading a headset reports, if it reports one; without a level, the last known stands. */
    function ReadingOf(headset: Headset): Option<Reading>
      requires Aligned()
    {
      match headset.battery
      case Discharging(percent) => Some(Reading(percent, false))
      case Charging(Some(percent)) => Some(Reading(percent, true))
      case Charging(None) =>
        var existing := Position(states, headset.Key());
        if existing.Some? then Some(Reading(devices[existing.value].reading.percent, true)) else None
      case _ => None
    }

    /** Takes in one report. */
    function Apply(headset: Headset, now: nat, io: Io): (after: BridgeState)
      requires Aligned()
      ensures after.Aligned()
    {
      var existing := Position(states, headset.Key());
      var seen := Seen(headset.Key(), now);
      var reading := ReadingOf(headset);
      if reading.Some? then
        if existing.Some? then
          seen.Update(existing.value, reading.value, headset.sample, now, io.pushed)
        else
          seen.AttachIfAllowed(headset, reading.value, now, io)
      else if headset.battery.Disconnected? && existing.Some? then
        seen.Gone(existing.value, now)
      else
        seen
    }

    function Consider(visit: Visit, now: nat): (after: BridgeState)
      requires Aligned()
      ensures after.Aligned()
    {
      if visit.headset.supportsBattery then Apply(visit.headset, now, visit.io) else this
    }

    function ConsiderAll(visits: seq<Visit>, now: nat): (after: BridgeState)
      requires Aligned()
      ensures after.Aligned()
    {
      if visits == [] then
        this
      else
        ConsiderAll(visits[..|visits| - 1], now).Consider(visits[|visits| - 1], now)
    }

    function NoteAll(now: nat): BridgeState {
      this.(states := seq(|states|, i requires 0 <= i < |states| => states[i].Noted(now)))
    }

    /** Releases every battery whose grace is over. */
    function Expire(now: nat, config: Config): BridgeState
      requires Aligned()
    {
      this.(devices := DevicesBy(true, devices, states, now, config),
            states := KeptStates(states, now, config),
            pool := pool.(spare := pool.spare + Handles(DevicesBy(false, devices, states, now, config))))
    }

    /** One poll, and what it reported. */
    function Tick(visits: seq<Visit>, now: nat, config: Config): BridgeState
      requires Aligned()
    {
      ConsiderAll(visits, now).NoteAll(now).Expire(now, config)
    }

    /** Serves every device until the deadline, from round `n` on. */
    ghost function Wait(serve: Serving, n: nat): BridgeState
      requires Aligned() && NamesLiveDevices(serve)
      decreases Strikes(states)
    {
      var served := serve(n, |devices|);
      if served.DeviceFailed? then
        OutcomeIsAStrike(this, served.index, served.at);
        Outcome(served.index, false, served.at).Wait(serve, n + 1)
      else
        this
    }

    /** How many failures a wait handles. */
    ghost function FailuresServed(serve: Serving, n: nat): nat
      requires Aligned() && NamesLiveDevices(serve)
      decreases Strikes(states)
    {
      var served := serve(n, |devices|);
      if served.DeviceFailed? then
        OutcomeIsAStrike(this, served.index, served.at);
        1 + Outcome(served.index, false, served.at).FailuresServed(serve, n + 1)
      else
        0
    }
  }

  /** Whether a poll leaves a battery unanswered. */
  predicate AnySilent(states: seq<VirtualBattery>) {
    exists battery <- states :: battery.silentSince.Some?
  }

  function NewBattery(key: HeadsetKey, reading: Reading, now: nat): VirtualBattery {
    VirtualBattery(key, now, now, None, None, None, NO_RECORD, reading.percent, now, 0)
  }

  // ----- Strikes -----

  lemma {:induction false} StrikesOfUpdate(states: seq<VirtualBattery>, i: nat, battery: VirtualBattery)
    requires i < |states|
    requires battery.failures == states[i].failures + 1 < DEVICE_FAILURE_LIMIT
    ensures Strikes(states[i := battery]) == Strikes(states) - 1
    decreases |states|
  {
    var n := |states| - 1;
    if i < n {
      StrikesOfUpdate(states[..n], i, battery);
      assert states[i := battery][..n] == states[..n][i := battery];
    } else {
      assert states[i := battery][..n] == states[..n];
    }
  }

  lemma {:induction false} StrikesOfRemoval(states: seq<VirtualBattery>, i: nat)
    requires i < |states|
    ensures Strikes(RemoveAt(states, i)) < Strikes(states)
    decreases |states|
  {
    var n := |states| - 1;
    if i < n {
      StrikesOfRemoval(states[..n], i);
      assert RemoveAt(states, i)[..n - 1] == RemoveAt(states[..n], i);
    } else {
      assert RemoveAt(states, i) == states[..n];
    }
  }

  /** Each failure uses up a strike, for good. */
  lemma OutcomeIsAStrike(s: BridgeState, index: nat, now: nat)
    requires s.Aligned() && index < |s.devices|
    ensures s.Outcome(index, false, now).Aligned()
    ensures Strikes(s.Outcome(index, false, now).states) < Strikes(s.states)
  {
    if s.states[index].failures + 1 < DEVICE_FAILURE_LIMIT {
      StrikesOfUpdate(s.states, index, s.states[index].(failures := s.states[index].failures + 1));
    } else {
      StrikesOfRemoval(s.states, index);
    }
  }
}
