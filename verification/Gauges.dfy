/**
 How one reading moves what the kernel shows of a battery: by one step of `Vetting`.
 */
module Gauges {
  import opened Prelude
  import opened Headsets
  import opened Policy
  import opened BridgeStates
  import opened BridgeInvariants
  import Vetting

  function GaugeAt(s: BridgeState, index: nat): Vetting.Gauge
    requires index < |s.devices| == |s.states|
  {
    Vetting.Gauge(s.devices[index].reading, s.states[index].record)
  }

  /**
   While it lives, a battery's device and record go from reading to reading as `Vetting.Step`
   has it; a push goes out exactly when the reading is not deferred, and changes the level or is
   due again.
   */
  lemma UpdateStepsTheGauge(s: BridgeState, index: nat, reading: Reading, sample: Option<nat>, now: nat, pushed: bool)
    requires Inv(s) && index < |s.devices|
    ensures var sampled := Vetting.Sampled(reading, sample);
      var was, after := GaugeAt(s, index), s.Update(index, reading, sample, now, pushed);
      var next := Vetting.Step(was, sampled);
      var due := !Vetting.Defers(was, sampled)
                 && (next.known != was.known || Since(now, s.states[index].publishedAt) >= REPUBLISH_EVERY);
      && after.Aligned()
      && (|after.devices| == |s.devices| ==> GaugeAt(after, index) == next)
      && var taken := s.trace + [Read(s.states[index].key, now, reading, sample)];
      && (!due ==> after.trace == taken)
      && (due ==>
            var key, alive := s.states[index].key, |after.devices| == |s.devices|;
            var told := taken + [Pushed(key, now, was.known, next.known), Talked(key, now, pushed, alive)];
            after.trace == told + if alive then [] else [Barred(key, now)])
  {
  }
}
