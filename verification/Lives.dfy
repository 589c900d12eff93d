/**
 The gauges over whole runs of the bridge: what a device shows is what vetting has made of the
 readings taken in since it was made, and a push that jumps rests on the last two of them.
 */
module Lives {
  import opened Prelude
  import opened Headsets
  import opened Policy
  import opened BridgeStates
  import opened BridgeInvariants
  import opened BridgeRuns
  import opened Gauges
  import Vetting

  /** The reading a device was made with, and those its battery has taken in since. */
  datatype Life = Life(start: Reading, readings: seq<Vetting.Sampled>)
  {
    function Start(): Vetting.Gauge {
      Vetting.Gauge(start, NO_RECORD)
    }

    function Gauge(): Vetting.Gauge {
      Vetting.Run(Start(), readings)
    }

    /** As the last reading found it. */
    function Before(): Vetting.Gauge
      requires readings != []
    {
      Vetting.Before(Start(), readings, |readings| - 1)
    }

    function Last(): Vetting.Sampled
      requires readings != []
    {
      readings[|readings| - 1]
    }
  }

  /** The life so far of the device made last for a headset. */
  function LifeOf(trace: seq<Event>, key: HeadsetKey): Option<Life> {
    if trace == [] then
      None
    else
      Lived(LifeOf(trace[..|trace| - 1], key), trace[|trace| - 1], key)
  }

  /** What an event makes of a life. */
  function Lived(life: Option<Life>, e: Event, key: HeadsetKey): Option<Life> {
    match e
    case Made(k, _, reading) => if k == key then Some(Life(reading, [])) else life
    case Read(k, _, reading, sample) =>
      if k == key && life.Some? then
        Some(Life(life.value.start, life.value.readings + [Vetting.Sampled(reading, sample)]))
      else
        life
    case _ => life
  }

  lemma LifeAfter(trace: seq<Event>, e: Event, key: HeadsetKey)
    ensures LifeOf(trace + [e], key) == Lived(LifeOf(trace, key), e, key)
  {
    assert (trace + [e])[..|trace|] == trace;
  }

  lemma OneMoreReading(life: Life, s: Vetting.Sampled)
    ensures var more := Life(life.start, life.readings + [s]);
      more.Before() == life.Gauge() && more.Last() == s && more.Gauge() == Vetting.Step(life.Gauge(), s)
  {
    assert (life.readings + [s])[..|life.readings|] == life.readings;
  }

  /** A push tells what the last reading has made of what was shown, right after it was taken in. */
  ghost predicate Tells(trace: seq<Event>, push: Event)
    requires push.Pushed?
  {
    var life := LifeOf(trace, push.key);
    && life.Some? && life.value.readings != []
    && trace != [] && trace[|trace| - 1] == Read(push.key, push.at, life.value.Last().reading, life.value.Last().sample)
    && !Vetting.Defers(life.value.Before(), life.value.Last())
    && push.known == life.value.Before().known && push.reading == life.value.Gauge().known
  }

  ghost predicate WellTold(trace: seq<Event>) {
    forall k :: 0 <= k < |trace| && trace[k].Pushed? ==> Tells(trace[..k], trace[k])
  }

  /** Every live battery's gauge is where the readings of its life lead, and every push told so. */
  ghost predicate WellVetted(s: BridgeState) {
    && s.Aligned() && WellTold(s.trace)
    && forall i :: 0 <= i < |s.states| ==> IsAlive(s, i)
  }

  ghost predicate IsAlive(s: BridgeState, i: nat)
    requires i < |s.devices| == |s.states|
  {
    var life := LifeOf(s.trace, s.states[i].key);
    life.Some? && GaugeAt(s, i) == life.value.Gauge()
  }

  lemma OneMoreEvent(trace: seq<Event>, e: Event)
    requires WellTold(trace) && (e.Pushed? ==> Tells(trace, e))
    ensures WellTold(trace + [e])
  {
    var more := trace + [e];
    forall k | 0 <= k < |more| && more[k].Pushed?
      ensures Tells(more[..k], more[k])
    {
      assert more[..k] == trace[..k];
    }
    assert trace[..|trace|] == trace;
  }

  /** An event that bears on no level, and a step that moves no gauge. */
  lemma {:induction false} EventIsVetted(s: BridgeState, after: BridgeState, e: Event)
    requires WellVetted(s) && !e.Made? && !e.Read? && !e.Pushed? && after.trace == s.trace + [e]
    requires after.devices == s.devices && |after.states| == |s.states|
    requires forall i :: 0 <= i < |s.states| ==>
      after.states[i].key == s.states[i].key && after.states[i].record == s.states[i].record
    ensures WellVetted(after)
  {
    OneMoreEvent(s.trace, e);
    forall i | 0 <= i < |after.states|
      ensures IsAlive(after, i)
    {
      assert IsAlive(s, i);
      LifeAfter(s.trace, e, after.states[i].key);
    }
  }

  lemma {:induction false} ReleaseIsVetted(s: BridgeState, index: nat)
    requires WellVetted(s) && index < |s.devices|
    ensures WellVetted(s.Release(index))
  {
    var after := s.Release(index);
    forall i | 0 <= i < |after.states|
      ensures IsAlive(after, i)
    {
      assert IsAlive(s, if i < index then i else i + 1);
    }
  }

  lemma {:induction false} OutcomeIsVetted(s: BridgeState, index: nat, ok: bool, now: nat)
    requires WellVetted(s) && index < |s.devices|
    ensures WellVetted(s.Outcome(index, ok, now))
  {
    var after, battery := s.Outcome(index, ok, now), s.states[index];
    var talked := s.(trace := s.trace + [after.trace[|s.trace|]]);
    if !ok && battery.failures + 1 >= DEVICE_FAILURE_LIMIT {
      EventIsVetted(s, talked, after.trace[|s.trace|]);
      ReleaseIsVetted(talked, index);
      EventIsVetted(talked.Release(index), after, Barred(battery.key, now));
    } else {
      EventIsVetted(s, after, after.trace[|s.trace|]);
    }
  }

  /** Taking in a reading is a step of the gauge, and so is the push that may follow it. */
  lemma UpdateIsVetted(s: BridgeState, index: nat, reading: Reading, sample: Option<nat>, now: nat, pushed: bool)
    requires Inv(s) && WellVetted(s) && index < |s.devices|
    ensures WellVetted(s.Update(index, reading, sample, now, pushed))
  {
    var battery := s.states[index].(lastReading := now, goneSince := None);
    var (record, vetted) := Vetted(battery.record, s.devices[index].reading, reading, sample);
    var read := s.Taken(index, reading, sample, now);
    var kept := read.(states := s.states[index := battery.(record := record)]);
    assert IsAlive(s, index);
    var life := LifeOf(s.trace, battery.key).value;
    OneMoreReading(life, Vetting.Sampled(reading, sample));
    OneMoreEvent(s.trace, Read(battery.key, now, reading, sample));
    if vetted.None? || (vetted.value == s.devices[index].reading && Since(now, battery.publishedAt) < REPUBLISH_EVERY) {
      ReadLives(s, kept, index, reading, sample, now);
    } else {
      var push := read.Push(index, battery.(record := record), vetted.value, now);
      ReadLives(s, push.(trace := read.trace), index, reading, sample, now);
      PushLives(push.(trace := read.trace), index, now, s.devices[index].reading);
      OutcomeIsVetted(push, index, pushed, now);
    }
  }

  /** The life of the battery that took in the reading is longer by it; no other life is touched. */
  lemma ReadLives(s: BridgeState, after: BridgeState, index: nat, reading: Reading, sample: Option<nat>, now: nat)
    requires Inv(s) && WellVetted(s) && index < |s.states| && after.Aligned() && |after.states| == |s.states|
    requires after.trace == s.trace + [Read(s.states[index].key, now, reading, sample)]
    requires forall i :: 0 <= i < |s.states| ==> after.states[i].key == s.states[i].key
    requires forall i :: 0 <= i < |s.states| && i != index ==> GaugeAt(after, i) == GaugeAt(s, i)
    requires GaugeAt(after, index) == Vetting.Step(GaugeAt(s, index), Vetting.Sampled(reading, sample))
    ensures WellVetted(after)
  {
    var key := s.states[index].key;
    var e := Read(key, now, reading, sample);
    OneMoreEvent(s.trace, e);
    forall i | 0 <= i < |after.states|
      ensures IsAlive(after, i)
    {
      assert IsAlive(s, i);
      LifeAfter(s.trace, e, after.states[i].key);
      OneMoreReading(LifeOf(s.trace, s.states[i].key).value, Vetting.Sampled(reading, sample));
    }
  }

  /** The device already shows what the push is about to tell. */
  lemma PushLives(s: BridgeState, index: nat, now: nat, known: Reading)
    requires Inv(s) && WellVetted(s) && index < |s.states|
    requires Tells(s.trace, Pushed(s.states[index].key, now, known, s.devices[index].reading))
    ensures WellVetted(s.(trace := s.trace + [Pushed(s.states[index].key, now, known, s.devices[index].reading)]))
  {
    var e := Pushed(s.states[index].key, now, known, s.devices[index].reading);
    var after := s.(trace := s.trace + [e]);
    OneMoreEvent(s.trace, e);
    forall i | 0 <= i < |after.states|
      ensures IsAlive(after, i)
    {
      assert IsAlive(s, i);
      LifeAfter(s.trace, e, after.states[i].key);
    }
  }

  lemma GoneIsVetted(s: BridgeState, index: nat, now: nat)
    requires WellVetted(s) && index < |s.devices|
    ensures WellVetted(s.Gone(index, now))
  {
    var after := s.Gone(index, now);
    forall i | 0 <= i < |after.states|
      ensures IsAlive(after, i)
    {
      assert IsAlive(s, if |after.states| == |s.states| || i < index then i else i + 1);
    }
  }

  lemma AttachIsVetted(s: BridgeState, headset: Headset, reading: Reading, now: nat, io: Io)
    requires Inv(s) && WellVetted(s) && Position(s.states, headset.Key()).None?
    ensures WellVetted(s.Attach(headset, reading, now, io).0)
  {
    var key := headset.Key();
    var after := s.Attach(headset, reading, now, io).0;
    var tried := s.trace + [Attempted(key, now)];
    OneMoreEvent(s.trace, Attempted(key, now));
    OneMoreEvent(tried, Made(key, now, reading));
    forall i | 0 <= i < |after.states|
      ensures IsAlive(after, i)
    {
      assert i < |s.states| ==> IsAlive(s, i);
      LifeAfter(s.trace, Attempted(key, now), after.states[i].key);
      LifeAfter(tried, Made(key, now, reading), after.states[i].key);
    }
  }

  lemma AttachIfAllowedIsVetted(s: BridgeState, headset: Headset, reading: Reading, now: nat, io: Io)
    requires Inv(s) && WellVetted(s) && Position(s.states, headset.Key()).None?
    ensures WellVetted(s.AttachIfAllowed(headset, reading, now, io))
  {
    var key := headset.Key();
    AttachIsVetted(s, headset, reading, now, io);
    var (attached, result) := s.Attach(headset, reading, now, io);
    var after := s.AttachIfAllowed(headset, reading, now, io);
    if after != s {
      match result
      case Attached => NotedIsVetted(attached, after, []);
      case Retry => NotedIsVetted(attached, after, [Barred(key, now)]);
      case GiveUp => NotedIsVetted(attached, after, [Abandoned(key)]);
    }
  }

  lemma NotedIsVetted(s: BridgeState, after: BridgeState, news: seq<Event>)
    requires WellVetted(s) && (news == [] || (|news| == 1 && (news[0].Barred? || news[0].Abandoned?)))
    requires after.devices == s.devices && after.states == s.states && after.trace == s.trace + news
    ensures WellVetted(after)
  {
    if news != [] {
      OneMoreEvent(s.trace, news[0]);
      assert after.trace == s.trace + [news[0]];
    } else {
      assert after.trace == s.trace;
    }
    forall i | 0 <= i < |after.states|
      ensures IsAlive(after, i)
    {
      assert IsAlive(s, i);
      if news != [] {
        LifeAfter(s.trace, news[0], after.states[i].key);
      }
    }
  }

  lemma ApplyIsVetted(s: BridgeState, headset: Headset, now: nat, io: Io)
    requires Inv(s) && WellVetted(s)
    ensures WellVetted(s.Apply(headset, now, io))
  {
    var existing := Position(s.states, headset.Key());
    var seen := s.Seen(headset.Key(), now);
    var reading := s.ReadingOf(headset);
    SeenIsVetted(s, headset.Key(), now);
    if existing.Some? {
      if reading.Some? {
        UpdateIsVetted(seen, existing.value, reading.value, headset.sample, now, io.pushed);
      } else {
        GoneIsVetted(seen, existing.value, now);
      }
    } else if reading.Some? {
      AttachIfAllowedIsVetted(seen, headset, reading.value, now, io);
    }
  }

  lemma SeenIsVetted(s: BridgeState, key: HeadsetKey, now: nat)
    requires Inv(s) && WellVetted(s)
    ensures Inv(s.Seen(key, now)) && WellVetted(s.Seen(key, now))
  {
    var after := s.Seen(key, now);
    forall i | 0 <= i < |after.states|
      ensures IsAlive(after, i)
    {
      assert IsAlive(s, i);
    }
  }

  lemma {:induction false} ConsiderAllIsVetted(s: BridgeState, visits: seq<Visit>, now: nat)
    requires Inv(s) && WellVetted(s)
    ensures WellVetted(s.ConsiderAll(visits, now))
    decreases |visits|
  {
    if visits == [] {
    } else {
      var n := |visits| - 1;
      ConsiderAllIsVetted(s, visits[..n], now);
      ConsiderAllKeepsInv(s, visits[..n], now);
      ApplyIsVetted(s.ConsiderAll(visits[..n], now), visits[n].headset, now, visits[n].io);
    }
  }

  lemma TickIsVetted(s: BridgeState, visits: seq<Visit>, now: nat, config: Config)
    requires Inv(s) && WellVetted(s)
    ensures WellVetted(s.Tick(visits, now, config))
  {
    ConsiderAllIsVetted(s, visits, now);
    var considered := s.ConsiderAll(visits, now);
    var noted := considered.NoteAll(now);
    KeptAligned(noted.devices, noted.states, now, config);
    var after := noted.Expire(now, config);
    forall k | 0 <= k < |after.states|
      ensures IsAlive(after, k)
    {
      var i := KeptFrom(noted.devices, noted.states, now, config, k);
      assert IsAlive(considered, i);
    }
  }

  lemma {:induction false} WaitIsVetted(s: BridgeState, serve: Serving, n: nat)
    requires WellVetted(s) && NamesLiveDevices(serve)
    ensures WellVetted(s.Wait(serve, n))
    decreases Strikes(s.states)
  {
    var served := serve(n, |s.devices|);
    if served.DeviceFailed? {
      OutcomeIsAStrike(s, served.index, served.at);
      OutcomeIsVetted(s, served.index, false, served.at);
      WaitIsVetted(s.Outcome(served.index, false, served.at), serve, n + 1);
    }
  }

  /**
   Over every run: the gauge of each live battery is where vetting leads, from the reading its
   device was made with through all those taken in since; and every push comes right after the
   reading it is due to, and tells what that made of the level shown.
   */
  lemma {:induction false} RunIsVetted(inherited: seq<Handle>, turns: seq<Turn>, config: Config)
    requires Timely(turns)
    ensures WellVetted(Run(inherited, turns, config))
    decreases |turns|
  {
    if turns == [] {
    } else {
      TimelyBefore(turns);
      var before := Run(inherited, turns[..|turns| - 1], config);
      RunIsVetted(inherited, turns[..|turns| - 1], config);
      match turns[|turns| - 1]
      case Ticked(visits, now) => TickIsVetted(before, visits, now, config);
      case Waited(serve, _) => WaitIsVetted(before, serve, 0);
    }
  }

  // ----- Every reading was reported -----

  /** A reading is what a report says; the level is left to what is shown if the report has none. */
  predicate Says(headset: Headset, e: Event)
    requires e.Read?
  {
    && headset.supportsBattery && headset.Key() == e.key && headset.sample == e.sample
    && match headset.battery
       case Discharging(percent) => e.reading == Reading(percent, false)
       case Charging(known) => e.reading.charging && (known.Some? ==> e.reading.percent == known.value)
       case _ => false
  }

  /** Visit `v` of turn `t` is a report that says this, made when it was taken in. */
  ghost predicate Reports(turns: seq<Turn>, t: nat, v: nat, e: Event)
    requires e.Read?
  {
    && t < |turns| && turns[t].Ticked? && turns[t].now == e.at
    && v < |turns[t].visits| && Says(turns[t].visits[v].headset, e)
  }

  lemma UpdateReads(s: BridgeState, index: nat, reading: Reading, sample: Option<nat>, now: nat, pushed: bool)
    requires s.Aligned() && index < |s.devices|
    ensures forall e <- s.Update(index, reading, sample, now, pushed).trace ::
      e in s.trace || !e.Read? || e == Read(s.states[index].key, now, reading, sample)
  {
  }

  lemma AttachReads(s: BridgeState, headset: Headset, reading: Reading, now: nat, io: Io)
    ensures forall e <- s.AttachIfAllowed(headset, reading, now, io).trace :: e in s.trace || !e.Read?
  {
  }

  lemma ApplyReads(s: BridgeState, visit: Visit, now: nat)
    requires s.Aligned()
    ensures forall e <- s.Consider(visit, now).trace ::
      e in s.trace || (e.Read? ==> Says(visit.headset, e) && e.at == now)
  {
    var headset := visit.headset;
    var existing, seen, reading := Position(s.states, headset.Key()), s.Seen(headset.Key(), now), s.ReadingOf(headset);
    if reading.Some? {
      if existing.Some? {
        UpdateReads(seen, existing.value, reading.value, headset.sample, now, visit.io.pushed);
      } else {
        AttachReads(seen, headset, reading.value, now, visit.io);
      }
    }
  }

  lemma {:induction false} ConsiderAllReads(s: BridgeState, visits: seq<Visit>, now: nat)
    requires s.Aligned()
    ensures forall e <- s.ConsiderAll(visits, now).trace ::
      e in s.trace || (e.Read? ==> e.at == now && exists v :: 0 <= v < |visits| && Says(visits[v].headset, e))
    decreases |visits|
  {
    if visits == [] {
    } else {
      var n := |visits| - 1;
      ConsiderAllReads(s, visits[..n], now);
      ApplyReads(s.ConsiderAll(visits[..n], now), visits[n], now);
    }
  }

  lemma {:induction false} WaitReadsNothing(s: BridgeState, serve: Serving, n: nat)
    requires s.Aligned() && NamesLiveDevices(serve)
    ensures forall e <- s.Wait(serve, n).trace :: e in s.trace || !e.Read?
    decreases Strikes(s.states)
  {
    var served := serve(n, |s.devices|);
    if served.DeviceFailed? {
      OutcomeIsAStrike(s, served.index, served.at);
      WaitReadsNothing(s.Outcome(served.index, false, served.at), serve, n + 1);
    }
  }

  /** Over every run, every reading taken in is one that was reported by the poll of that instant. */
  lemma {:induction false} ReadingsAreReported(inherited: seq<Handle>, turns: seq<Turn>, config: Config)
    requires Timely(turns)
    ensures forall e <- Run(inherited, turns, config).trace ::
      e.Read? ==> exists t: nat, v: nat :: Reports(turns, t, v, e)
    decreases |turns|
  {
    if turns == [] {
    } else {
      TimelyBefore(turns);
      var n := |turns| - 1;
      var before := Run(inherited, turns[..n], config);
      ReadingsAreReported(inherited, turns[..n], config);
      match turns[n] {
        case Ticked(visits, now) => ConsiderAllReads(before, visits, now);
        case Waited(serve, _) => WaitReadsNothing(before, serve, 0);
      }
      forall e <- Run(inherited, turns, config).trace | e.Read?
        ensures exists t: nat, v: nat :: Reports(turns, t, v, e)
      {
        if e in before.trace {
          var t: nat, v: nat :| Reports(turns[..n], t, v, e);
          assert Reports(turns, t, v, e);
        } else {
          var v :| 0 <= v < |turns[n].visits| && Says(turns[n].visits[v].headset, e);
          assert Reports(turns, n, v, e);
        }
      }
    }
  }

  // ----- What that says of the level shown -----

  /** A push of more than the plausible step. */
  predicate IsJump(e: Event) {
    e.Pushed? && AbsDiff(e.known.percent, e.reading.percent) > MAX_PLAUSIBLE_STEP
  }

  /** The event bears on the level of the headset: a device made, a reading taken in, a push. */
  predicate BearsOn(e: Event, key: HeadsetKey) {
    (e.Made? || e.Read? || e.Pushed?) && e.key == key
  }

  /**
   A push right after the reading whose level it tells, with - and nothing in between that bears
   on the level - another reading that was as far off and agrees with it: another sample.
   */
  ghost predicate RestsOnTwo(trace: seq<Event>, push: Event, first: nat)
    requires push.Pushed?
  {
    var second := |trace| - 1;
    && first < second && trace[first].Read? && trace[first].key == push.key
    && trace[second].Read? && trace[second].key == push.key
    && trace[second].reading == push.reading && trace[second].at == push.at
    && (trace[second].sample.None? || trace[second].sample != trace[first].sample)
    && AbsDiff(trace[first].reading.percent, push.reading.percent) <= CONFIRM_TOLERANCE
    && AbsDiff(trace[first].reading.percent, push.known.percent) > MAX_PLAUSIBLE_STEP
    && forall m :: first < m < second ==> !BearsOn(trace[m], push.key)
  }

  /** Where the last reading of a life is in the trace: since it, none was taken in and no device made. */
  lemma {:induction false} LastReading(trace: seq<Event>, key: HeadsetKey) returns (j: nat)
    requires var life := LifeOf(trace, key); life.Some? && life.value.readings != []
    ensures j < |trace| && trace[j].Read? && trace[j].key == key
    ensures var life := LifeOf(trace, key).value;
      && Vetting.Sampled(trace[j].reading, trace[j].sample) == life.Last()
      && LifeOf(trace[..j], key) == Some(Life(life.start, life.readings[..|life.readings| - 1]))
      && LifeOf(trace[..j + 1], key) == Some(life)
    ensures forall m :: j < m < |trace| ==> BearsOn(trace[m], key) ==> trace[m].Pushed?
    decreases |trace|
  {
    var n := |trace| - 1;
    if trace[n].Read? && trace[n].key == key {
      j := n;
      assert trace[..n + 1] == trace;
    } else {
      j := LastReading(trace[..n], key);
      assert trace[..n][..j] == trace[..j] && trace[..n][..j + 1] == trace[..j + 1];
    }
  }

  /** Nothing was pushed on the strength of a reading that was deferred. */
  lemma DeferredIsNotPushed(trace: seq<Event>, key: HeadsetKey, j: nat)
    requires WellTold(trace) && j < |trace| && trace[j].Read? && trace[j].key == key
    requires var life := LifeOf(trace[..j + 1], key);
      life.Some? && life.value.readings != [] && Vetting.Defers(life.value.Before(), life.value.Last())
    requires forall m :: j < m < |trace| ==> BearsOn(trace[m], key) ==> trace[m].Pushed?
    ensures forall m :: j < m < |trace| ==> !BearsOn(trace[m], key)
  {
    forall m | j < m < |trace|
      ensures !BearsOn(trace[m], key)
    {
      assert m - 1 == j ==> trace[..m] == trace[..j + 1];
    }
  }

  /** What a life has deferred is its last reading, on which nothing was made, read or pushed since. */
  lemma DeferredReading(trace: seq<Event>, key: HeadsetKey) returns (j: nat)
    requires WellTold(trace) && LifeOf(trace, key).Some?
    requires LifeOf(trace, key).value.Gauge().record.deferred.Some?
    ensures j < |trace| && trace[j].Read? && trace[j].key == key
    ensures var gauge := LifeOf(trace, key).value.Gauge();
      && gauge.record.deferred == Some(trace[j].reading.percent) && gauge.record.deferredSample == trace[j].sample
      && AbsDiff(trace[j].reading.percent, gauge.known.percent) > MAX_PLAUSIBLE_STEP
    ensures forall m :: j < m < |trace| ==> !BearsOn(trace[m], key)
  {
    var life := LifeOf(trace, key).value;
    Vetting.OnlyTheLastIsDeferred(life.Start(), life.readings);
    j := LastReading(trace, key);
    DeferredIsNotPushed(trace, key, j);
  }

  lemma JumpRestsOnTwo(trace: seq<Event>, push: Event) returns (first: nat)
    requires WellTold(trace) && IsJump(push) && Tells(trace, push)
    ensures first < |trace| && RestsOnTwo(trace, push, first)
  {
    var second := |trace| - 1;
    var life := LifeOf(trace, push.key).value;
    var k := LastReading(trace, push.key);
    assert k == second;
    var before := Life(life.start, life.readings[..|life.readings| - 1]);
    Vetting.JumpTakesTwo(before.Gauge(), life.Last());
    WellToldBefore(trace, second);
    first := DeferredReading(trace[..second], push.key);
    assert forall m :: first < m < second ==> trace[..second][m] == trace[m];
  }

  lemma WellToldBefore(trace: seq<Event>, n: nat)
    requires WellTold(trace) && n <= |trace|
    ensures WellTold(trace[..n])
  {
    forall k | 0 <= k < n && trace[k].Pushed?
      ensures Tells(trace[..n][..k], trace[k])
    {
      assert trace[..n][..k] == trace[..k];
    }
  }

  /**
   Over every run, a level pushed more than the plausible step away from the one shown is that
   of the reading just taken in, and the reading before it - on the same device, with nothing
   shown in between - was as far off and agrees with it, under another sample.
   */
  lemma JumpsRestOnTwo(inherited: seq<Handle>, turns: seq<Turn>, config: Config, k: nat)
    requires Timely(turns)
    requires var trace := Run(inherited, turns, config).trace; k < |trace| && IsJump(trace[k])
    ensures var trace := Run(inherited, turns, config).trace;
      exists first: nat :: RestsOnTwo(trace[..k], trace[k], first)
  {
    RunIsVetted(inherited, turns, config);
    var trace := Run(inherited, turns, config).trace;
    WellToldBefore(trace, k);
    var first := JumpRestsOnTwo(trace[..k], trace[k]);
  }

  /** The life of the battery at `i`. */
  function LifeAt(s: BridgeState, i: nat): Life
    requires i < |s.states| && LifeOf(s.trace, s.states[i].key).Some?
  {
    LifeOf(s.trace, s.states[i].key).value
  }

  /**
   Over every run, a headset whose life so far is one of discharging without a jump shows the
   lowest of the level its device was made with and the readings not deferred since.
   */
  lemma ShownIsTheLowest(inherited: seq<Handle>, turns: seq<Turn>, config: Config, i: nat)
    requires Timely(turns) && i < |Run(inherited, turns, config).states|
    ensures var s := Run(inherited, turns, config);
      && LifeOf(s.trace, s.states[i].key).Some?
      && var life := LifeAt(s, i);
        !life.start.charging && Vetting.Discharges(life.Start(), life.readings) ==>
          && !s.devices[i].reading.charging
          && Vetting.IsLowest(
               s.devices[i].reading.percent, life.start.percent, Vetting.Believed(life.Start(), life.readings))
  {
    RunIsVetted(inherited, turns, config);
    var s := Run(inherited, turns, config);
    assert IsAlive(s, i);
    var life := LifeAt(s, i);
    if !life.start.charging && Vetting.Discharges(life.Start(), life.readings) {
      Vetting.PublishedIsTheLowest(life.Start(), life.readings);
    }
  }

  /**
   Over every run, a device shows the last reading its battery took in - level and cable - if that
   was plausible and no rise off the cable, or confirmed the one deferred; and otherwise what it
   showed before.
   */
  lemma ShownIsTheReading(inherited: seq<Handle>, turns: seq<Turn>, config: Config, i: nat)
    requires Timely(turns) && i < |Run(inherited, turns, config).states|
    ensures var s := Run(inherited, turns, config);
      && LifeOf(s.trace, s.states[i].key).Some?
      && var life := LifeAt(s, i);
        s.devices[i].reading
        == if life.readings == [] then life.start
           else if Vetting.IsTaken(life.Before(), life.Last()) then life.Last().reading
           else life.Before().known
  {
    RunIsVetted(inherited, turns, config);
    var s := Run(inherited, turns, config);
    assert IsAlive(s, i);
    var life := LifeAt(s, i);
    if life.readings != [] {
      Vetting.ShownExactly(life.Before(), life.Last());
    }
  }

  /** The last two readings agree, and are not one and the same. */
  predicate LastTwoAgree(readings: seq<Vetting.Sampled>) {
    && 2 <= |readings|
    && var first, second := readings[|readings| - 2], readings[|readings| - 1];
      && AbsDiff(first.reading.percent, second.reading.percent) <= CONFIRM_TOLERANCE
      && (second.sample.None? || second.sample != first.sample)
  }

  /**
   Over every run, a headset whose last two readings agree is shown within the step and the
   tolerance of the last one.
   */
  lemma ShownTracksTheReadings(inherited: seq<Handle>, turns: seq<Turn>, config: Config, i: nat)
    requires Timely(turns) && i < |Run(inherited, turns, config).states|
    ensures var s := Run(inherited, turns, config);
      && LifeOf(s.trace, s.states[i].key).Some?
      && var life := LifeAt(s, i);
        LastTwoAgree(life.readings) ==>
          AbsDiff(s.devices[i].reading.percent, life.Last().reading.percent) <= MAX_PLAUSIBLE_STEP + CONFIRM_TOLERANCE
  {
    RunIsVetted(inherited, turns, config);
    var s := Run(inherited, turns, config);
    assert IsAlive(s, i);
    var life := LifeAt(s, i);
    if LastTwoAgree(life.readings) {
      LastTwoTrack(life.Start(), life.readings);
    }
  }

  lemma LastTwoTrack(g: Vetting.Gauge, readings: seq<Vetting.Sampled>)
    requires LastTwoAgree(readings)
    ensures AbsDiff(Vetting.Run(g, readings).known.percent, readings[|readings| - 1].reading.percent)
            <= MAX_PLAUSIBLE_STEP + CONFIRM_TOLERANCE
  {
    var n := |readings| - 2;
    assert readings == readings[..n] + [readings[n], readings[n + 1]];
    Vetting.RunSplits(g, readings[..n], [readings[n], readings[n + 1]]);
    Vetting.TrackingBound(Vetting.Run(g, readings[..n]), readings[n], readings[n + 1]);
  }

  /** Reading `n` came out of nowhere, with nothing deferred, and the next was plausible again. */
  ghost predicate IsGlitch(g: Vetting.Gauge, readings: seq<Vetting.Sampled>, n: nat) {
    && n + 1 < |readings|
    && var found := Vetting.Before(g, readings, n);
      && found.record.deferred == None
      && AbsDiff(found.known.percent, readings[n].reading.percent) > MAX_PLAUSIBLE_STEP
      && AbsDiff(found.known.percent, readings[n + 1].reading.percent) <= MAX_PLAUSIBLE_STEP
  }

  /** Over every run, what is shown is what would be if a glitch had never been read. */
  lemma GlitchesAreNotShown(inherited: seq<Handle>, turns: seq<Turn>, config: Config, i: nat, n: nat)
    requires Timely(turns) && i < |Run(inherited, turns, config).states|
    ensures var s := Run(inherited, turns, config);
      && LifeOf(s.trace, s.states[i].key).Some?
      && var life := LifeAt(s, i);
        IsGlitch(life.Start(), life.readings, n) ==>
          GaugeAt(s, i) == Vetting.Run(life.Start(), life.readings[..n] + life.readings[n + 1..])
  {
    RunIsVetted(inherited, turns, config);
    var s := Run(inherited, turns, config);
    assert IsAlive(s, i);
    var life := LifeAt(s, i);
    if IsGlitch(life.Start(), life.readings, n) {
      GlitchIsForgotten(life.Start(), life.readings, n);
    }
  }

  lemma GlitchIsForgotten(g: Vetting.Gauge, readings: seq<Vetting.Sampled>, n: nat)
    requires IsGlitch(g, readings, n)
    ensures Vetting.Run(g, readings) == Vetting.Run(g, readings[..n] + readings[n + 1..])
  {
    var with, without := readings[n..], readings[n + 1..];
    assert Vetting.Run(Vetting.Before(g, readings, n), with)
        == Vetting.Run(Vetting.Before(g, readings, n), without) by {
      Vetting.GlitchLeavesNoTrace(Vetting.Before(g, readings, n), readings[n], readings[n + 1], readings[n + 2..]);
      assert with == [readings[n], readings[n + 1]] + readings[n + 2..];
      assert without == [readings[n + 1]] + readings[n + 2..];
    }
    Vetting.RunSplits(g, readings[..n], with);
    Vetting.RunSplits(g, readings[..n], without);
    assert readings == readings[..n] + with;
  }
}
