/**
 What vetting guarantees over whole sequences of readings: the level published is the lowest
 one seen since the last charge, it tracks what the gauge insists on, and no single reading,
 however wrong, moves it far.
 */
module Vetting {
  import opened Prelude
  import opened Policy

  /** What the kernel shows, and the record vetting keeps. */
  datatype Gauge = Gauge(known: Reading, record: Record)

  datatype Sampled = Sampled(reading: Reading, sample: Option<nat>)

  predicate Defers(g: Gauge, s: Sampled) {
    Vetted(g.record, g.known, s.reading, s.sample).1.None?
  }

  function Step(g: Gauge, s: Sampled): Gauge {
    var (record, published) := Vetted(g.record, g.known, s.reading, s.sample);
    Gauge(if published.Some? then published.value else g.known, record)
  }

  /** A reading published although it is further than the plausible step from the one known. */
  predicate Jumps(g: Gauge, s: Sampled) {
    !Defers(g, s) && AbsDiff(g.known.percent, s.reading.percent) > MAX_PLAUSIBLE_STEP
  }

  function Run(g: Gauge, readings: seq<Sampled>): Gauge {
    if readings == [] then g else Step(Run(g, readings[..|readings| - 1]), readings[|readings| - 1])
  }

  /** The gauge as reading `i` finds it. */
  function Before(g: Gauge, readings: seq<Sampled>, i: nat): Gauge
    requires i <= |readings|
  {
    Run(g, readings[..i])
  }

  lemma {:induction false} RunSplits(g: Gauge, first: seq<Sampled>, rest: seq<Sampled>)
    ensures Run(g, first + rest) == Run(Run(g, first), rest)
    decreases |rest|
  {
    if rest == [] {
      assert first + rest == first;
    } else {
      RunSplits(g, first, rest[..|rest| - 1]);
      assert (first + rest)[..|first + rest| - 1] == first + rest[..|rest| - 1];
    }
  }

  // ----- One reading -----

  /** Within the plausible step of what is shown. */
  predicate IsNear(g: Gauge, s: Sampled) {
    AbsDiff(g.known.percent, s.reading.percent) <= MAX_PLAUSIBLE_STEP
  }

  /** More than is shown, and off the cable before and after. */
  predicate IsRise(g: Gauge, s: Sampled) {
    !g.known.charging && !s.reading.charging && g.known.percent < s.reading.percent
  }

  /** Close to what was deferred, and another sample than that. */
  predicate IsConfirmed(g: Gauge, s: Sampled) {
    && g.record.deferred.Some? && AbsDiff(g.record.deferred.value, s.reading.percent) <= CONFIRM_TOLERANCE
    && (s.sample.None? || s.sample != g.record.deferredSample)
  }

  /** A plausible reading that does not rise off the cable, or a confirmed one, however far. */
  predicate IsTaken(g: Gauge, s: Sampled) {
    if IsNear(g, s) then !IsRise(g, s) else IsConfirmed(g, s)
  }

  /**
   What a reading does, whatever is remembered: it is shown at once, cable and all, exactly if it
   is taken; it is deferred exactly if it is far off and not confirmed; and the one left over, a
   small rise off the cable, is held. What is deferred or held is remembered until one is taken.
   */
  lemma ShownExactly(g: Gauge, s: Sampled)
    ensures Step(g, s).known == if IsTaken(g, s) then s.reading else g.known
    ensures Defers(g, s) <==> !IsNear(g, s) && !IsConfirmed(g, s)
    ensures var percent, before, record := s.reading.percent, g.record, Step(g, s).record;
      record == if IsTaken(g, s) then NO_RECORD
                else if IsNear(g, s) then Record(None, None, Some(percent))
                else Record(Some(percent), s.sample, before.held)
  {
  }

  /** Only what is known or what was just read is ever shown, and a reading not deferred is near it. */
  lemma NotDeferredIsNear(g: Gauge, s: Sampled)
    ensures Step(g, s).known == g.known || Step(g, s).known == s.reading
    ensures Defers(g, s) ==> Step(g, s).known == g.known
    ensures !Defers(g, s) ==> AbsDiff(Step(g, s).known.percent, s.reading.percent) <= MAX_PLAUSIBLE_STEP
    ensures !Defers(g, s) ==> Step(g, s).record.deferred == None
  {
  }

  /**
   A jump takes two readings: the one deferred and, close to it, another one - which is what is
   published.
   */
  lemma JumpTakesTwo(g: Gauge, s: Sampled)
    requires AbsDiff(g.known.percent, Step(g, s).known.percent) > MAX_PLAUSIBLE_STEP
    ensures Step(g, s).known == s.reading && Jumps(g, s)
    ensures g.record.deferred.Some? && AbsDiff(g.record.deferred.value, s.reading.percent) <= CONFIRM_TOLERANCE
    ensures s.sample.None? || s.sample != g.record.deferredSample
  {
  }

  /**
   What waits for a second opinion is the reading just before, never an older one: whatever is
   not deferred in between forgets it.
   */
  lemma OnlyTheLastIsDeferred(g: Gauge, readings: seq<Sampled>)
    requires g.record.deferred.None? && Run(g, readings).record.deferred.Some?
    ensures readings != []
    ensures var last, record := readings[|readings| - 1], Run(g, readings).record;
      && Defers(Before(g, readings, |readings| - 1), last)
      && record.deferred == Some(last.reading.percent) && record.deferredSample == last.sample
      && Run(g, readings).known == Before(g, readings, |readings| - 1).known
      && AbsDiff(Run(g, readings).known.percent, last.reading.percent) > MAX_PLAUSIBLE_STEP
  {
    if readings == [] {
      assert false;
    }
  }

  // ----- Tracking -----

  /**
   From any state, two fresh readings in a row that agree within the tolerance leave the
   published level within the step and the tolerance of the second; and if both were far off,
   the second is published.
   */
  lemma TrackingBound(g: Gauge, first: Sampled, second: Sampled)
    requires AbsDiff(first.reading.percent, second.reading.percent) <= CONFIRM_TOLERANCE
    requires second.sample.None? || second.sample != first.sample
    ensures var after := Run(g, [first, second]);
      && AbsDiff(after.known.percent, second.reading.percent) <= MAX_PLAUSIBLE_STEP + CONFIRM_TOLERANCE
      && (Defers(g, first) && AbsDiff(g.known.percent, second.reading.percent) > MAX_PLAUSIBLE_STEP ==>
            after.known == second.reading)
  {
    TwoSteps(g, first, second);
  }

  lemma TwoSteps(g: Gauge, first: Sampled, second: Sampled)
    ensures Run(g, [first, second]) == Step(Step(g, first), second)
  {
    assert [first, second][..1] == [first];
    assert [first][..0] == [];
    assert Run(g, [first]) == Step(g, first);
  }

  /** The bound is met: one reading held below the step, the next deferred above it. */
  lemma TrackingBoundIsTight()
    ensures exists g, first: Sampled, second: Sampled ::
      && AbsDiff(first.reading.percent, second.reading.percent) <= CONFIRM_TOLERANCE
      && (second.sample.None? || second.sample != first.sample)
      && AbsDiff(Run(g, [first, second]).known.percent, second.reading.percent)
         == MAX_PLAUSIBLE_STEP + CONFIRM_TOLERANCE
  {
    var g := Gauge(Reading(50, false), NO_RECORD);
    var first, second := Sampled(Reading(65, false), None), Sampled(Reading(70, false), None);
    TwoSteps(g, first, second);
    assert AbsDiff(Run(g, [first, second]).known.percent, second.reading.percent) == 20;
  }

  // ----- Glitches -----

  /**
   With nothing deferred, one reading out of nowhere before a plausible one leaves no trace: the
   run goes on, through whatever follows, exactly as if it had never been.
   */
  lemma GlitchLeavesNoTrace(g: Gauge, glitch: Sampled, next: Sampled, rest: seq<Sampled>)
    requires g.record.deferred == None
    requires AbsDiff(g.known.percent, glitch.reading.percent) > MAX_PLAUSIBLE_STEP
    requires AbsDiff(g.known.percent, next.reading.percent) <= MAX_PLAUSIBLE_STEP
    ensures Step(g, glitch).known == g.known
    ensures Step(Step(g, glitch), next) == Step(g, next)
    ensures Run(g, [glitch, next] + rest) == Run(g, [next] + rest)
  {
    RunSplits(g, [glitch, next], rest);
    RunSplits(g, [next], rest);
    TwoSteps(g, glitch, next);
    assert [next][..0] == [];
  }

  // ----- The published level while discharging -----

  /** Every reading is deferred, or one off the cable that does not jump. */
  ghost predicate Discharges(g: Gauge, readings: seq<Sampled>) {
    forall i :: 0 <= i < |readings| ==>
      Defers(Before(g, readings, i), readings[i])
      || (!readings[i].reading.charging && !Jumps(Before(g, readings, i), readings[i]))
  }

  /** The levels of the readings that are not deferred, in order. */
  function Believed(g: Gauge, readings: seq<Sampled>): seq<nat> {
    if readings == [] then
      []
    else
      var n := |readings| - 1;
      Believed(g, readings[..n])
      + if Defers(Before(g, readings, n), readings[n]) then [] else [readings[n].reading.percent]
  }

  predicate IsLowest(level: nat, start: nat, levels: seq<nat>) {
    && level <= start
    && (forall other <- levels :: level <= other)
    && (level == start || level in levels)
  }

  lemma BelievedStep(g: Gauge, s: Sampled)
    requires !g.known.charging && (Defers(g, s) || (!s.reading.charging && !Jumps(g, s)))
    ensures !Step(g, s).known.charging
    ensures Step(g, s).known.percent
         == if Defers(g, s) then g.known.percent else Min(g.known.percent, s.reading.percent)
  {
  }

  lemma LowestOfOneMore(level: nat, start: nat, levels: seq<nat>, other: nat)
    requires IsLowest(level, start, levels)
    ensures IsLowest(Min(level, other), start, levels + [other])
  {
  }

  /**
   While discharging, with no jump confirmed, the level published is the lowest of the one it
   started from and all the readings that were not deferred.
   */
  lemma {:induction false} PublishedIsTheLowest(g: Gauge, readings: seq<Sampled>)
    requires !g.known.charging && Discharges(g, readings)
    ensures !Run(g, readings).known.charging
    ensures IsLowest(Run(g, readings).known.percent, g.known.percent, Believed(g, readings))
    decreases |readings|
  {
    if readings == [] {
    } else {
      var n := |readings| - 1;
      var most := readings[..n];
      DischargesBefore(g, readings, n);
      PublishedIsTheLowest(g, most);
      BelievedStep(Run(g, most), readings[n]);
      LowestOfOneMore(Run(g, most).known.percent, g.known.percent, Believed(g, most), readings[n].reading.percent);
    }
  }

  lemma DischargesBefore(g: Gauge, readings: seq<Sampled>, n: nat)
    requires Discharges(g, readings) && n <= |readings|
    ensures Discharges(g, readings[..n])
  {
    forall i | 0 <= i < n
      ensures Before(g, readings[..n], i) == Before(g, readings, i)
    {
      assert readings[..n][..i] == readings[..i];
    }
  }

  /** A charge was seen, or a jump confirmed, by reading `i`. */
  ghost predicate LetsRise(g: Gauge, readings: seq<Sampled>, i: nat)
    requires i < |readings|
  {
    && !Defers(Before(g, readings, i), readings[i])
    && (readings[i].reading.charging || Jumps(Before(g, readings, i), readings[i]))
  }

  /**
   So the level never rises between two moments off the cable unless a charging reading was
   published in between, or a jump of more than the step was confirmed.
   */
  lemma RisesHaveAReason(g: Gauge, readings: seq<Sampled>, i: nat, j: nat)
    requires i <= j <= |readings|
    requires !Before(g, readings, i).known.charging
    requires Before(g, readings, i).known.percent < Before(g, readings, j).known.percent
    ensures exists k: nat :: i <= k < j && LetsRise(g, readings, k)
  {
    if forall k: nat :: i <= k < j ==> !LetsRise(g, readings, k) {
      NeverRisesBetween(g, readings, i, j);
    }
  }

  lemma {:induction false} NeverRisesBetween(g: Gauge, readings: seq<Sampled>, i: nat, j: nat)
    requires i <= j <= |readings| && !Before(g, readings, i).known.charging
    requires forall k: nat :: i <= k < j ==> !LetsRise(g, readings, k)
    ensures Before(g, readings, j).known.percent <= Before(g, readings, i).known.percent
  {
    DischargesBetween(g, readings, i, j);
    NeverRises(Before(g, readings, i), readings[i..j]);
    RunBetween(g, readings, i, j);
  }

  lemma {:induction false} RunBetween(g: Gauge, readings: seq<Sampled>, i: nat, j: nat)
    requires i <= j <= |readings|
    ensures Run(Before(g, readings, i), readings[i..j]) == Before(g, readings, j)
  {
    RunSplits(g, readings[..i], readings[i..j]);
    assert readings[..i] + readings[i..j] == readings[..j];
  }

  lemma DischargesBetween(g: Gauge, readings: seq<Sampled>, i: nat, j: nat)
    requires i <= j <= |readings|
    requires forall k: nat :: i <= k < j ==> !LetsRise(g, readings, k)
    ensures Discharges(Before(g, readings, i), readings[i..j])
  {
    var from, between := Before(g, readings, i), readings[i..j];
    forall k | 0 <= k < |between|
      ensures Defers(Before(from, between, k), between[k])
              || (!between[k].reading.charging && !Jumps(Before(from, between, k), between[k]))
    {
      BeforeBetween(g, readings, i, j, k);
      assert !LetsRise(g, readings, i + k);
    }
  }

  lemma BeforeBetween(g: Gauge, readings: seq<Sampled>, i: nat, j: nat, k: nat)
    requires i <= j <= |readings| && k <= j - i
    ensures Before(Before(g, readings, i), readings[i..j], k) == Before(g, readings, i + k)
  {
    assert readings[i..j][..k] == readings[i..i + k];
    assert readings[..i] + readings[i..i + k] == readings[..i + k];
    RunSplits(g, readings[..i], readings[i..i + k]);
  }

  lemma {:induction false} NeverRises(g: Gauge, readings: seq<Sampled>)
    requires !g.known.charging && Discharges(g, readings)
    ensures Run(g, readings).known.percent <= g.known.percent
  {
    PublishedIsTheLowest(g, readings);
  }
}
