/**
 What the bookkeeping of the bridge owes to the trace, over whole runs: the strikes of a battery are
 the failures in a row, what bars an attempt is a failure on record - and so exactly which devices
 are struck out, and exactly which headsets are tried.
 */
module BridgeRecords {
  import opened Prelude
  import opened Headsets
  import opened Policy
  import opened BridgeStates
  import opened BridgeInvariants
  import opened BridgeRuns
  import Gauges
  import Vetting

  /** How often talking to a headset's device has failed since it was made, or last went well. */
  function InARow(trace: seq<Event>, key: HeadsetKey): nat {
    if trace == [] then 0 else Counted(InARow(trace[..|trace| - 1], key), trace[|trace| - 1], key)
  }

  function Counted(failures: nat, e: Event, key: HeadsetKey): nat {
    match e
    case Made(k, _, _) => if k == key then 0 else failures
    case Talked(k, _, ok, _) => if k != key then failures else if ok then 0 else failures + 1
    case _ => failures
  }

  lemma {:induction false} InARowAfter(trace: seq<Event>, e: Event, key: HeadsetKey)
    ensures InARow(trace + [e], key) == Counted(InARow(trace, key), e, key)
  {
    assert (trace + [e])[..|trace|] == trace;
  }

  /** A device survives what happens to it exactly if that is not the third failure in a row. */
  ghost predicate StruckOutRightly(trace: seq<Event>) {
    forall k :: 0 <= k < |trace| && trace[k].Talked? ==> IsRight(trace[..k], trace[k])
  }

  ghost predicate IsRight(before: seq<Event>, e: Event)
    requires e.Talked?
  {
    && InARow(before, e.key) < DEVICE_FAILURE_LIMIT
    && (e.alive <==> e.ok || InARow(before, e.key) + 1 < DEVICE_FAILURE_LIMIT)
  }

  lemma {:induction false} OneMoreRight(trace: seq<Event>, e: Event)
    requires StruckOutRightly(trace) && (e.Talked? ==> IsRight(trace, e))
    ensures StruckOutRightly(trace + [e])
  {
    var more := trace + [e];
    forall k | 0 <= k < |more| && more[k].Talked?
      ensures IsRight(more[..k], more[k])
    {
      assert more[..k] == trace[..k];
    }
    assert trace[..|trace|] == trace;
  }

  /** A failure in the trace bars the headset until then. */
  ghost predicate IsBarredUntil(trace: seq<Event>, key: HeadsetKey, until: nat) {
    ATTACH_RETRY <= until && Barred(key, until - ATTACH_RETRY) in trace
  }

  /** What bars a headset from being tried is a failure, or a refusal, in the trace. */
  ghost predicate BarsAreReal(s: BridgeState) {
    && (forall key <- s.retryAt :: IsBarredUntil(s.trace, key, s.retryAt[key]))
    && (forall key <- s.abandoned :: Abandoned(key) in s.trace)
  }

  /** The level last worth a line is less than a step away from the one shown. */
  predicate IsLogged(s: BridgeState, i: nat)
    requires i < |s.devices| == |s.states|
  {
    AbsDiff(s.states[i].loggedPercent, s.devices[i].reading.percent) < LOG_STEP
  }

  /** What is on record of a battery: its strikes, and the level last worth a line. */
  ghost predicate IsOnRecord(s: BridgeState, i: nat)
    requires i < |s.devices| == |s.states|
  {
    s.states[i].failures == InARow(s.trace, s.states[i].key) && IsLogged(s, i)
  }

  ghost predicate WellKept(s: BridgeState) {
    && s.Aligned() && BarsAreReal(s) && StruckOutRightly(s.trace)
    && forall i :: 0 <= i < |s.states| ==> IsOnRecord(s, i)
  }

  /** With the result of talking to a device counted. */
  function Talk(s: BridgeState, index: nat, ok: bool, now: nat): BridgeState
    requires s.Aligned() && index < |s.devices|
  {
    var battery := s.states[index];
    var failures := if ok then 0 else battery.failures + 1;
    s.(states := s.states[index := battery.(failures := failures)],
       trace := s.trace + [Talked(battery.key, now, ok, failures < DEVICE_FAILURE_LIMIT)])
  }

  lemma {:induction false} TalkIsKept(s: BridgeState, index: nat, ok: bool, now: nat)
    requires Inv(s) && WellKept(s) && index < |s.devices|
    ensures WellKept(Talk(s, index, ok, now))
  {
    var after, talked := Talk(s, index, ok, now), Talk(s, index, ok, now).trace[|s.trace|];
    assert IsOnRecord(s, index);
    OneMoreRight(s.trace, talked);
    forall i | 0 <= i < |after.states|
      ensures IsOnRecord(after, i)
    {
      assert IsOnRecord(s, i);
      InARowAfter(s.trace, talked, after.states[i].key);
    }
  }

  lemma {:induction false} StrikingOutIsKept(s: BridgeState, index: nat, now: nat)
    requires WellKept(s) && index < |s.devices|
    ensures var key := s.states[index].key;
      WellKept(s.Release(index).(
                 retryAt := s.retryAt[key := now + ATTACH_RETRY], trace := s.trace + [Barred(key, now)]))
  {
    var key := s.states[index].key;
    var after := s.Release(index).(
                   retryAt := s.retryAt[key := now + ATTACH_RETRY], trace := s.trace + [Barred(key, now)]);
    OneMoreRight(s.trace, Barred(key, now));
    forall i | 0 <= i < |after.states|
      ensures IsOnRecord(after, i)
    {
      assert IsOnRecord(s, if i < index then i else i + 1);
      InARowAfter(s.trace, Barred(key, now), after.states[i].key);
    }
  }

  lemma {:induction false} OutcomeIsKept(s: BridgeState, index: nat, ok: bool, now: nat)
    requires Inv(s) && WellKept(s) && index < |s.devices|
    ensures WellKept(s.Outcome(index, ok, now))
  {
    var talked := Talk(s, index, ok, now);
    TalkIsKept(s, index, ok, now);
    if !ok && s.states[index].failures + 1 >= DEVICE_FAILURE_LIMIT {
      StrikingOutIsKept(talked, index, now);
      assert RemoveAt(talked.states, index) == RemoveAt(s.states, index);
    }
  }

  /** An event that neither makes a device nor talks to one. */
  lemma {:induction false} NotedIsKept(s: BridgeState, after: BridgeState, e: Event)
    requires WellKept(s) && !e.Made? && !e.Talked? && after.trace == s.trace + [e] && after.Aligned()
    requires after.retryAt == s.retryAt && after.abandoned == s.abandoned && |after.states| == |s.states|
    requires forall i :: 0 <= i < |s.states| ==>
      after.states[i].key == s.states[i].key && after.states[i].failures == s.states[i].failures
    requires forall i :: 0 <= i < |s.states| ==> IsLogged(after, i)
    ensures WellKept(after)
  {
    OneMoreRight(s.trace, e);
    forall i | 0 <= i < |after.states|
      ensures IsOnRecord(after, i)
    {
      assert IsOnRecord(s, i);
      InARowAfter(s.trace, e, after.states[i].key);
    }
  }

  lemma {:induction false} UpdateIsKept(
    s: BridgeState, index: nat, reading: Reading, sample: Option<nat>, now: nat, pushed: bool)
    requires Inv(s) && WellKept(s) && index < |s.devices|
    ensures WellKept(s.Update(index, reading, sample, now, pushed))
  {
    var battery := s.states[index].(lastReading := now, goneSince := None);
    var (record, vetted) := Vetted(battery.record, s.devices[index].reading, reading, sample);
    var read := s.Taken(index, reading, sample, now);
    var kept := read.(states := s.states[index := battery.(record := record)]);
    forall i | 0 <= i < |s.states|
      ensures IsLogged(read, i) && IsLogged(kept, i)
    {
      assert IsOnRecord(s, i);
    }
    NotedIsKept(s, read, read.trace[|s.trace|]);
    if vetted.None? || (vetted.value == s.devices[index].reading && Since(now, battery.publishedAt) < REPUBLISH_EVERY) {
      NotedIsKept(s, kept, kept.trace[|s.trace|]);
    } else {
      var push := read.Push(index, battery.(record := record), vetted.value, now);
      forall i | 0 <= i < |s.states|
        ensures IsLogged(push, i)
      {
        assert IsLogged(read, i);
      }
      NotedIsKept(read, push, push.trace[|read.trace|]);
      OutcomeIsKept(push, index, pushed, now);
    }
  }

  lemma {:induction false} GoneIsKept(s: BridgeState, index: nat, now: nat)
    requires WellKept(s) && index < |s.devices|
    ensures WellKept(s.Gone(index, now))
  {
    var after := s.Gone(index, now);
    forall i | 0 <= i < |after.states|
      ensures IsOnRecord(after, i)
    {
      assert IsOnRecord(s, if |after.states| == |s.states| || i < index then i else i + 1);
    }
  }

  lemma {:induction false} AttachIsKept(s: BridgeState, headset: Headset, reading: Reading, now: nat, io: Io)
    requires Inv(s) && WellKept(s) && Position(s.states, headset.Key()).None?
    ensures WellKept(s.Attach(headset, reading, now, io).0)
  {
    var key := headset.Key();
    var after := s.Attach(headset, reading, now, io).0;
    var tried := s.trace + [Attempted(key, now)];
    OneMoreRight(s.trace, Attempted(key, now));
    OneMoreRight(tried, Made(key, now, reading));
    forall i | 0 <= i < |after.states|
      ensures IsOnRecord(after, i)
    {
      assert i < |s.states| ==> IsOnRecord(s, i);
      InARowAfter(s.trace, Attempted(key, now), after.states[i].key);
      InARowAfter(tried, Made(key, now, reading), after.states[i].key);
    }
  }

  lemma {:induction false} AttachIfAllowedIsKept(s: BridgeState, headset: Headset, reading: Reading, now: nat, io: Io)
    requires Inv(s) && WellKept(s) && Position(s.states, headset.Key()).None?
    ensures WellKept(s.AttachIfAllowed(headset, reading, now, io))
  {
    var key := headset.Key();
    var (attached, result) := s.Attach(headset, reading, now, io);
    AttachIsKept(s, headset, reading, now, io);
    AttachAddsOne(s, headset, reading, now, io);
    match result
    case Attached => BarsAreKept(attached, attached.(retryAt := s.retryAt - {key}));
    case Retry => BarIsKept(attached, key, now);
    case GiveUp => AbandoningIsKept(attached, key);
  }

  lemma {:induction false} BarsAreKept(s: BridgeState, after: BridgeState)
    requires WellKept(s) && BarsAreReal(after)
    requires after.devices == s.devices && after.states == s.states && after.trace == s.trace
    ensures WellKept(after)
  {
    forall i | 0 <= i < |after.states|
      ensures IsOnRecord(after, i)
    {
      assert IsOnRecord(s, i);
    }
  }

  lemma {:induction false} BarIsKept(s: BridgeState, key: HeadsetKey, now: nat)
    requires WellKept(s)
    ensures WellKept(s.(retryAt := s.retryAt[key := now + ATTACH_RETRY], trace := s.trace + [Barred(key, now)]))
  {
    var noted := s.(trace := s.trace + [Barred(key, now)]);
    forall i | 0 <= i < |s.states|
      ensures IsLogged(noted, i)
    {
      assert IsOnRecord(s, i);
    }
    NotedIsKept(s, noted, Barred(key, now));
    assert noted.trace[|s.trace|] == Barred(key, now);
    assert IsBarredUntil(noted.trace, key, now + ATTACH_RETRY);
    BarsAreKept(noted, noted.(retryAt := s.retryAt[key := now + ATTACH_RETRY]));
  }

  lemma {:induction false} AbandoningIsKept(s: BridgeState, key: HeadsetKey)
    requires WellKept(s)
    ensures WellKept(s.(abandoned := s.abandoned + {key}, trace := s.trace + [Abandoned(key)]))
  {
    var noted := s.(trace := s.trace + [Abandoned(key)]);
    forall i | 0 <= i < |s.states|
      ensures IsLogged(noted, i)
    {
      assert IsOnRecord(s, i);
    }
    NotedIsKept(s, noted, Abandoned(key));
    assert noted.trace[|s.trace|] == Abandoned(key);
    BarsAreKept(noted, noted.(abandoned := s.abandoned + {key}));
  }

  lemma {:induction false} ApplyIsKept(s: BridgeState, headset: Headset, now: nat, io: Io)
    requires Inv(s) && WellKept(s)
    ensures WellKept(s.Apply(headset, now, io))
  {
    var existing := Position(s.states, headset.Key());
    var seen := s.Seen(headset.Key(), now);
    var reading := s.ReadingOf(headset);
    SeenIsKept(s, headset.Key(), now);
    if existing.Some? {
      if reading.Some? {
        UpdateIsKept(seen, existing.value, reading.value, headset.sample, now, io.pushed);
      } else {
        GoneIsKept(seen, existing.value, now);
      }
    } else if reading.Some? {
      AttachIfAllowedIsKept(seen, headset, reading.value, now, io);
    }
  }

  lemma {:induction false} SeenIsKept(s: BridgeState, key: HeadsetKey, now: nat)
    requires Inv(s) && WellKept(s)
    ensures Inv(s.Seen(key, now)) && WellKept(s.Seen(key, now))
  {
    var after := s.Seen(key, now);
    forall i | 0 <= i < |after.states|
      ensures IsOnRecord(after, i)
    {
      assert IsOnRecord(s, i);
    }
  }

  lemma {:induction false} ConsiderAllIsKept(s: BridgeState, visits: seq<Visit>, now: nat)
    requires Inv(s) && WellKept(s)
    ensures WellKept(s.ConsiderAll(visits, now))
    decreases |visits|
  {
    if visits == [] {
    } else {
      var n := |visits| - 1;
      ConsiderAllIsKept(s, visits[..n], now);
      ConsiderAllKeepsInv(s, visits[..n], now);
      ApplyIsKept(s.ConsiderAll(visits[..n], now), visits[n].headset, now, visits[n].io);
    }
  }

  lemma {:induction false} TickIsKept(s: BridgeState, visits: seq<Visit>, now: nat, config: Config)
    requires Inv(s) && WellKept(s)
    ensures WellKept(s.Tick(visits, now, config))
  {
    ConsiderAllIsKept(s, visits, now);
    var considered := s.ConsiderAll(visits, now);
    var noted := considered.NoteAll(now);
    KeptAligned(noted.devices, noted.states, now, config);
    var after := noted.Expire(now, config);
    forall k | 0 <= k < |after.states|
      ensures IsOnRecord(after, k)
    {
      var i := KeptFrom(noted.devices, noted.states, now, config, k);
      assert IsOnRecord(considered, i);
    }
  }

  lemma {:induction false} WaitIsKept(s: BridgeState, serve: Serving, n: nat)
    requires Inv(s) && WellKept(s) && NamesLiveDevices(serve)
    ensures WellKept(s.Wait(serve, n))
    decreases Strikes(s.states)
  {
    var served := serve(n, |s.devices|);
    if served.DeviceFailed? {
      OutcomeIsAStrike(s, served.index, served.at);
      OutcomeKeepsInv(s, served.index, false, served.at);
      OutcomeIsKept(s, served.index, false, served.at);
      WaitIsKept(s.Outcome(served.index, false, served.at), serve, n + 1);
    }
  }

  /**
   Over every run: a battery's strikes are the failures in a row since its device was made or last
   took something, and a device is struck out by the third of them and by nothing else; what
   bars a headset is a failure or refusal on record; and the level last worth a line is less than a
   step away from the one shown.
   */
  lemma {:induction false} RunIsKept(inherited: seq<Handle>, turns: seq<Turn>, config: Config)
    requires Timely(turns)
    ensures WellKept(Run(inherited, turns, config))
    decreases |turns|
  {
    if turns == [] {
    } else {
      TimelyBefore(turns);
      var before := Run(inherited, turns[..|turns| - 1], config);
      RunIsKept(inherited, turns[..|turns| - 1], config);
      match turns[|turns| - 1]
      case Ticked(visits, now) => TickIsKept(before, visits, now, config);
      case Waited(serve, _) => WaitIsKept(before, serve, 0);
    }
  }

  // ----- Three failures in a row -----

  /** How talking to a headset's device has gone since it was made. */
  function OutcomesOf(trace: seq<Event>, key: HeadsetKey): seq<bool> {
    if trace == [] then
      []
    else
      var before, e := OutcomesOf(trace[..|trace| - 1], key), trace[|trace| - 1];
      if e.Made? && e.key == key then []
      else if e.Talked? && e.key == key then before + [e.ok]
      else before
  }

  /** The last `n` of these failed. */
  predicate LastFailed(outcomes: seq<bool>, n: nat) {
    n <= |outcomes| && forall j :: |outcomes| - n <= j < |outcomes| ==> !outcomes[j]
  }

  lemma {:induction false} InARowAreTheLast(trace: seq<Event>, key: HeadsetKey, n: nat)
    ensures n <= InARow(trace, key) <==> LastFailed(OutcomesOf(trace, key), n)
    decreases |trace|
  {
    if trace == [] {
    } else {
      var e := trace[|trace| - 1];
      var before := trace[..|trace| - 1];
      InARowAreTheLast(before, key, n);
      if e.Talked? && e.key == key {
        LastFailedAfter(OutcomesOf(before, key), e.ok, n);
        if 0 < n {
          InARowAreTheLast(before, key, n - 1);
        }
      }
    }
  }

  lemma {:induction false} LastFailedAfter(outcomes: seq<bool>, ok: bool, n: nat)
    ensures LastFailed(outcomes + [ok], n) <==> n == 0 || (!ok && LastFailed(outcomes, n - 1))
  {
    var more := outcomes + [ok];
    assert forall j :: 0 <= j < |outcomes| ==> more[j] == outcomes[j];
    assert more[|outcomes|] == ok;
    if 0 < n && LastFailed(more, n) {
      assert forall j :: |outcomes| - (n - 1) <= j < |outcomes| ==> !more[j];
    }
  }

  /**
   Over every run, talking to a device ends it if and only if that was the third failure in a row:
   whatever went well before - or between two waits - starts the count anew.
   */
  lemma {:induction false} StruckOutExactly(inherited: seq<Handle>, turns: seq<Turn>, config: Config, k: nat)
    requires Timely(turns)
    requires var trace := Run(inherited, turns, config).trace; k < |trace| && trace[k].Talked?
    ensures var trace := Run(inherited, turns, config).trace;
      !trace[k].alive <==> LastFailed(OutcomesOf(trace[..k + 1], trace[k].key), DEVICE_FAILURE_LIMIT)
  {
    RunIsKept(inherited, turns, config);
    var trace := Run(inherited, turns, config).trace;
    assert IsRight(trace[..k], trace[k]);
    assert trace[..k + 1] == trace[..k] + [trace[k]];
    RightIsTheThird(trace[..k], trace[k]);
  }

  lemma {:induction false} RightIsTheThird(before: seq<Event>, e: Event)
    requires e.Talked? && IsRight(before, e)
    ensures !e.alive <==> LastFailed(OutcomesOf(before + [e], e.key), DEVICE_FAILURE_LIMIT)
  {
    InARowAfter(before, e, e.key);
    InARowAreTheLast(before + [e], e.key, DEVICE_FAILURE_LIMIT);
  }

  /** What becomes of a device is what the trace says: it lives on, or is withdrawn and barred for a minute. */
  lemma {:induction false} OutcomeTells(s: BridgeState, index: nat, ok: bool, now: nat)
    requires Inv(s) && index < |s.devices|
    ensures var after, key := s.Outcome(index, ok, now), s.states[index].key;
      var alive := IsLive(after, key);
      && after.trace == s.trace + [Talked(key, now, ok, alive)] + (if alive then [] else [Barred(key, now)])
      && (!alive ==> after.pool == s.pool.PutBack(s.devices[index].handle)
                     && after.retryAt == s.retryAt[key := now + ATTACH_RETRY])
      && (alive ==> after.devices == s.devices && after.pool == s.pool && after.retryAt == s.retryAt)
  {
    var after, key := s.Outcome(index, ok, now), s.states[index].key;
    if |after.states| == |s.states| {
      assert after.states[index] in after.states && after.states[index].key == key;
    } else {
      assert forall i :: 0 <= i < |after.states| ==> after.states[i] == s.states[if i < index then i else i + 1];
    }
  }

  /** After something went well, two failures are not enough. */
  lemma {:induction false} TwoFailuresAreForgiven(s: BridgeState, index: nat, now: nat, second: nat, third: nat)
    requires s.Aligned() && index < |s.devices|
    ensures var after := s.Outcome(index, true, now).Outcome(index, false, second);
      && after.Aligned() && |after.devices| == |s.devices|
      && after.Outcome(index, false, third).devices == s.devices
  {
  }

  // ----- Who is tried -----

  /** The report has a level of its own. */
  function LevelOf(headset: Headset): Option<Reading> {
    match headset.battery
    case Discharging(percent) => Some(Reading(percent, false))
    case Charging(Some(percent)) => Some(Reading(percent, true))
    case _ => None
  }

  /** Nothing in the trace bars the headset at `now`: it was never abandoned, and no failure is a minute new. */
  ghost predicate IsAllowed(trace: seq<Event>, key: HeadsetKey, now: nat) {
    forall e <- trace :: e != Abandoned(key) && (e.Barred? && e.key == key ==> e.at + ATTACH_RETRY <= now)
  }

  /** There is a handle to make a device on. */
  predicate HasHandle(s: BridgeState, io: Io) {
    s.pool.spare != [] || (s.pool.mayOpen && io.opens)
  }

  /** What comes of trying: a device, a refusal for good, or a failure that bars it for a minute. */
  function Tried(s: BridgeState, key: HeadsetKey, reading: Reading, now: nat, io: Io): Event {
    if !HasHandle(s, io) then Barred(key, now)
    else match io.create
      case Created => if io.supply == Registered then Made(key, now, reading) else Barred(key, now)
      case IdentityRefused => Abandoned(key)
      case CreateFailed => Barred(key, now)
  }

  /** A report of a headset without a battery: tried exactly if it has a level and nothing bars it. */
  ghost predicate IsTriedExactly(s: BridgeState, visit: Visit, now: nat)
    requires s.Aligned()
  {
    var key, reading, after := visit.headset.Key(), LevelOf(visit.headset), s.Consider(visit, now);
    if visit.headset.supportsBattery && reading.Some? && IsAllowed(s.trace, key, now) then
      var comes := Tried(s, key, reading.value, now, visit.io);
      after.trace == s.trace + [Attempted(key, now), comes] && (IsLive(after, key) <==> comes.Made?)
    else
      after == s
  }

  lemma {:induction false} AllowedExactly(s: BridgeState, key: HeadsetKey, now: nat)
    requires BarsAreReal(s) && Recorded(s, now)
    ensures IsAllowed(s.trace, key, now) <==> !(key in s.retryAt && now < s.retryAt[key]) && key !in s.abandoned
  {
    if key in s.retryAt && now < s.retryAt[key] {
      assert IsBarredUntil(s.trace, key, s.retryAt[key]);
    }
    if key in s.abandoned {
      assert Abandoned(key) in s.trace;
    }
  }

  lemma {:induction false} ReportIsTriedExactly(s: BridgeState, visit: Visit, now: nat)
    requires Inv(s) && BarsAreReal(s) && Disciplined(s, now) && !IsLive(s, visit.headset.Key())
    ensures IsTriedExactly(s, visit, now)
  {
    var headset, key := visit.headset, visit.headset.Key();
    assert Position(s.states, key).None?;
    AllowedExactly(s, key, now);
    if headset.supportsBattery && LevelOf(headset).Some? && IsAllowed(s.trace, key, now) {
      TryingTells(s, headset, LevelOf(headset).value, now, visit.io);
    }
  }

  lemma {:induction false} TryingTells(s: BridgeState, headset: Headset, reading: Reading, now: nat, io: Io)
    requires Inv(s) && !IsLive(s, headset.Key())
    requires !(headset.Key() in s.retryAt && now < s.retryAt[headset.Key()]) && headset.Key() !in s.abandoned
    ensures var after, comes := s.AttachIfAllowed(headset, reading, now, io), Tried(s, headset.Key(), reading, now, io);
      after.trace == s.trace + [Attempted(headset.Key(), now), comes] && (IsLive(after, headset.Key()) <==> comes.Made?)
  {
    var after, comes := s.AttachIfAllowed(headset, reading, now, io), Tried(s, headset.Key(), reading, now, io);
    AttachAddsOne(s, headset, reading, now, io);
    if comes.Made? {
      assert after.states[|s.states|] in after.states && after.states[|s.states|].key == headset.Key();
    }
  }

  /**
   Over every run, a poll tries a headset that has no battery if and only if it reports a level
   of it, it was never abandoned, and its last failure is a minute old; it has a battery afterwards if
   and only if there was a handle and the kernel took the device and its registration.
   */
  lemma {:induction false} TriedExactly(
    inherited: seq<Handle>, turns: seq<Turn>, visits: seq<Visit>, now: nat, config: Config, v: nat)
    requires Timely(turns) && Clock(turns) < now && v < |visits|
    ensures var before := Run(inherited, turns, config).ConsiderAll(visits[..v], now);
      !IsLive(before, visits[v].headset.Key()) ==> IsTriedExactly(before, visits[v], now)
  {
    var s := Run(inherited, turns, config);
    var before := s.ConsiderAll(visits[..v], now);
    RunIsKept(inherited, turns, config);
    BarredHeadsetsAreLeftAlone(inherited, turns, config);
    ConsiderAllIsKept(s, visits[..v], now);
    ConsiderAllKeepsInv(s, visits[..v], now);
    ConsiderAllIsDisciplined(s, visits[..v], now);
    if !IsLive(before, visits[v].headset.Key()) {
      ReportIsTriedExactly(before, visits[v], now);
    }
  }

  // ----- Who is read -----

  /** What a report is read as, for a headset that is shown this: without a level of its own, what is shown. */
  function ReadAs(headset: Headset, shown: Reading): Option<Reading> {
    if headset.battery == Charging(None) then Some(Reading(shown.percent, true)) else LevelOf(headset)
  }

  /** A report of a headset with a battery is taken in exactly if it is of a level, or of the cable. */
  lemma {:induction false} ReportIsReadExactly(s: BridgeState, visit: Visit, now: nat, index: nat)
    requires Inv(s) && index < |s.states| && s.states[index].key == visit.headset.Key()
    ensures var key, reading := visit.headset.Key(), ReadAs(visit.headset, s.devices[index].reading);
      var after := s.Consider(visit, now);
      if visit.headset.supportsBattery && reading.Some? then
        s.trace + [Read(key, now, reading.value, visit.headset.sample)] <= after.trace
      else
        after.trace == s.trace
  {
    var headset := visit.headset;
    assert Position(s.states, headset.Key()) == Some(index);
    var reading := ReadAs(headset, s.devices[index].reading);
    if headset.supportsBattery && reading.Some? {
      var seen := s.Seen(headset.Key(), now);
      assert Inv(seen);
      Gauges.UpdateStepsTheGauge(seen, index, reading.value, headset.sample, now, visit.io.pushed);
    }
  }

  // ----- Serving to the end -----

  /** How many times talking to a device has failed. */
  function FailuresIn(trace: seq<Event>): nat {
    if trace == [] then
      0
    else
      var e := trace[|trace| - 1];
      FailuresIn(trace[..|trace| - 1]) + if e.Talked? && !e.ok then 1 else 0
  }

  lemma {:induction false} FailuresAfter(trace: seq<Event>, e: Event)
    ensures FailuresIn(trace + [e]) == FailuresIn(trace) + if e.Talked? && !e.ok then 1 else 0
  {
    assert (trace + [e])[..|trace|] == trace;
  }

  lemma {:induction false} OneMoreFailure(s: BridgeState, index: nat, now: nat)
    requires s.Aligned() && index < |s.devices|
    ensures FailuresIn(s.Outcome(index, false, now).trace) == FailuresIn(s.trace) + 1
  {
    var after, key := s.Outcome(index, false, now), s.states[index].key;
    var talked := after.trace[|s.trace|];
    FailuresAfter(s.trace, talked);
    FailuresAfter(s.trace + [talked], Barred(key, now));
    assert after.trace == s.trace + [talked] || after.trace == s.trace + [talked] + [Barred(key, now)];
  }

  /** A wait goes on through every failure until a round ends without one. */
  lemma {:induction false} WaitServesToTheEnd(s: BridgeState, serve: Serving, n: nat)
    requires s.Aligned() && NamesLiveDevices(serve)
    ensures !serve(n + s.FailuresServed(serve, n), |s.Wait(serve, n).devices|).DeviceFailed?
    decreases Strikes(s.states)
  {
    var served := serve(n, |s.devices|);
    if served.DeviceFailed? {
      OutcomeIsAStrike(s, served.index, served.at);
      WaitServesToTheEnd(s.Outcome(served.index, false, served.at), serve, n + 1);
    }
  }

  /** And each of them is on record. */
  lemma {:induction false} WaitRecordsFailures(s: BridgeState, serve: Serving, n: nat)
    requires s.Aligned() && NamesLiveDevices(serve)
    ensures FailuresIn(s.Wait(serve, n).trace) == FailuresIn(s.trace) + s.FailuresServed(serve, n)
    decreases Strikes(s.states)
  {
    var served := serve(n, |s.devices|);
    if served.DeviceFailed? {
      OutcomeIsAStrike(s, served.index, served.at);
      OneMoreFailure(s, served.index, served.at);
      WaitRecordsFailures(s.Outcome(served.index, false, served.at), serve, n + 1);
    }
  }
}
