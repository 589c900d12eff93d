/**
 The watch for a wedged dongle (src/maxwell/wedge.rs), which streams to a headset it says nothing
 of: when it starts looking for playback, when it warns, and when it warns again.
 */
module Wedge {
  import opened Prelude

  const WEDGE_SILENCE: nat := 600 * SECOND
  const WEDGE_REMINDER: nat := 24 * 3600 * SECOND
  const PROBE_EVERY: nat := 30 * SECOND

  /** A look at the audio side: when, and whether playback was running, if that could be told. */
  datatype Probe = Probe(at: nat, running: Option<bool>)

  datatype Watch = Watch(heardAt: nat, warnedAt: Option<nat>, probed: Option<Probe>)
  {
    function Heard(now: nat): Watch {
      Watch(now, None, None)
    }

    predicate Suspects(now: nat) {
      Since(now, heardAt) >= WEDGE_SILENCE
    }

    /** Whether a check at `now` takes a fresh look. */
    predicate Probes(now: nat) {
      Suspects(now) && !(probed.Some? && Since(now, probed.value.at) < PROBE_EVERY)
    }

    /** The evidence a check at `now` goes by; `running` is what a look would find. */
    function Evidence(now: nat, running: Option<bool>): Option<Probe> {
      if Probes(now) then Some(Probe(now, running)) else probed
    }

    predicate Warns(now: nat, running: Option<bool>) {
      && Suspects(now)
      && Evidence(now, running).value.running == Some(true)
      && (warnedAt.None? || Since(now, warnedAt.value) >= WEDGE_REMINDER)
    }

    function Check(now: nat, running: Option<bool>): Watch {
      if Warns(now, running) then
        this.(probed := Evidence(now, running), warnedAt := Some(now))
      else
        this.(probed := Evidence(now, running))
    }
  }

  function NewWatch(now: nat): Watch {
    Watch(now, None, None)
  }

  class WedgeWatch {
    var heardAt: nat
    var warnedAt: Option<nat>
    var probed: Option<Probe>

    constructor (now: nat)
      ensures View() == NewWatch(now)
    {
      heardAt := now;
      warnedAt := None;
      probed := None;
    }

    ghost function View(): Watch
      reads this
    {
      Watch(heardAt, warnedAt, probed)
    }

    /** Ends the silence; `recovered` is whether a warning was out. */
    method Heard(now: nat) returns (recovered: bool)
      modifies this
      ensures View() == old(View()).Heard(now)
      ensures recovered <==> old(warnedAt).Some?
    {
      heardAt := now;
      probed := None;
      recovered := warnedAt.Some?;
      warnedAt := None;
    }

    function Silence(now: nat): nat
      reads this
    {
      Since(now, heardAt)
    }

    /**
     Goes on with the silence: `warning` is its length, if this is the moment to warn. `running` is
     what a look for playback would find, should there be one.
     */
    method Check(now: nat, running: Option<bool>) returns (warning: Option<nat>)
      modifies this
      ensures View() == old(View()).Check(now, running)
      ensures warning == if old(View()).Warns(now, running) then Some(Since(now, heardAt)) else None
    {
      var silence := Silence(now);
      if silence < WEDGE_SILENCE {
        return None;
      }
      var result;
      if probed.Some? && Since(now, probed.value.at) < PROBE_EVERY {
        result := probed.value.running;
      } else {
        result := running;
        probed := Some(Probe(now, running));
      }
      if result != Some(true) {
        return None;
      }
      if warnedAt.None? || Since(now, warnedAt.value) >= WEDGE_REMINDER {
        warnedAt := Some(now);
        return Some(silence);
      }
      warning := None;
    }
  }

  // ----- Runs -----

  /** What a reader tells its watch: that a dongle spoke, or that one was passed over. */
  datatype Event = Spoke(at: nat) | Passed(at: nat, running: Option<bool>)

  function Step(w: Watch, e: Event): Watch {
    match e
    case Spoke(at) => w.Heard(at)
    case Passed(at, running) => w.Check(at, running)
  }

  function Run(w: Watch, events: seq<Event>): Watch {
    if events == [] then w else Step(Run(w, events[..|events| - 1]), events[|events| - 1])
  }

  ghost predicate WarnsAt(w: Watch, events: seq<Event>, i: nat)
    requires i < |events|
  {
    events[i].Passed? && Run(w, events[..i]).Warns(events[i].at, events[i].running)
  }

  ghost predicate ProbesAt(w: Watch, events: seq<Event>, i: nat)
    requires i < |events|
  {
    events[i].Passed? && Run(w, events[..i]).Probes(events[i].at)
  }

  ghost function Warnings(w: Watch, events: seq<Event>): nat {
    if events == [] then
      0
    else
      Warnings(w, events[..|events| - 1]) + if WarnsAt(w, events, |events| - 1) then 1 else 0
  }

  ghost function Looks(w: Watch, events: seq<Event>): nat {
    if events == [] then
      0
    else
      Looks(w, events[..|events| - 1]) + if ProbesAt(w, events, |events| - 1) then 1 else 0
  }

  ghost predicate Ordered(from: nat, events: seq<Event>) {
    && (forall i :: 0 <= i < |events| ==> from <= events[i].at)
    && (forall i, j :: 0 <= i < j < |events| ==> events[i].at <= events[j].at)
  }

  ghost predicate Silent(events: seq<Event>) {
    forall i :: 0 <= i < |events| ==> events[i].Passed?
  }

  /** `n` occurrences, the last no later than `at`, none before `first`, all `every` apart. */
  predicate AtMostEvery(n: nat, first: nat, every: nat, at: nat) {
    n == 0 || first + (n - 1) * every <= at
  }

  /**
   In a silence that began at `h`, no warning comes before ten minutes and then at most one a
   day; no look at the audio comes before that either, and then at most one every half minute.
   */
  lemma {:induction false} SilenceIsReportedSparingly(h: nat, events: seq<Event>)
    requires Silent(events) && Ordered(h, events)
    ensures var w := Run(NewWatch(h), events);
      && w.heardAt == h
      && (0 < Warnings(NewWatch(h), events) <==> w.warnedAt.Some?)
      && (0 < Looks(NewWatch(h), events) <==> w.probed.Some?)
      && (w.warnedAt.Some? ==>
            && w.warnedAt.value <= events[|events| - 1].at
            && AtMostEvery(Warnings(NewWatch(h), events), h + WEDGE_SILENCE, WEDGE_REMINDER, w.warnedAt.value))
      && (w.probed.Some? ==>
            && w.probed.value.at <= events[|events| - 1].at
            && AtMostEvery(Looks(NewWatch(h), events), h + WEDGE_SILENCE, PROBE_EVERY, w.probed.value.at))
    decreases |events|
  {
    if events == [] {
    } else {
      var most := events[..|events| - 1];
      SilenceIsReportedSparingly(h, most);
      var w := NewWatch(h);
      CountedStep(h, Run(w, most), Warnings(w, most), Looks(w, most), events[|events| - 1]);
    }
  }

  lemma CountedStep(h: nat, w: Watch, warnings: nat, looks: nat, e: Event)
    requires e.Passed? && w.heardAt == h <= e.at
    requires (0 < warnings <==> w.warnedAt.Some?) && (0 < looks <==> w.probed.Some?)
    requires w.warnedAt.Some? ==>
      w.warnedAt.value <= e.at && AtMostEvery(warnings, h + WEDGE_SILENCE, WEDGE_REMINDER, w.warnedAt.value)
    requires w.probed.Some? ==>
      w.probed.value.at <= e.at && AtMostEvery(looks, h + WEDGE_SILENCE, PROBE_EVERY, w.probed.value.at)
    ensures w.Warns(e.at, e.running) ==> AtMostEvery(warnings + 1, h + WEDGE_SILENCE, WEDGE_REMINDER, e.at)
    ensures w.Probes(e.at) ==> AtMostEvery(looks + 1, h + WEDGE_SILENCE, PROBE_EVERY, e.at)
  {
  }

  /**
   In numbers, for a silence of at least ten minutes that has lasted from when a dongle last spoke,
   whatever came before, until `t`.
   */
  lemma SilenceIsCounted(before: Watch, h: nat, events: seq<Event>, t: nat)
    requires Silent(events) && Ordered(h, events) && h + WEDGE_SILENCE <= t
    requires forall i :: 0 <= i < |events| ==> events[i].at <= t
    ensures Warnings(before.Heard(h), events) <= 1 + (t - h - WEDGE_SILENCE) / WEDGE_REMINDER
    ensures Looks(before.Heard(h), events) <= 1 + (t - h - WEDGE_SILENCE) / PROBE_EVERY
  {
    SilenceIsReportedSparingly(h, events);
    InNumbers(Warnings(NewWatch(h), events), h + WEDGE_SILENCE, WEDGE_REMINDER, t);
    InNumbers(Looks(NewWatch(h), events), h + WEDGE_SILENCE, PROBE_EVERY, t);
  }

  lemma {:induction false} InNumbers(n: nat, first: nat, every: nat, t: nat)
    requires 0 < every && first <= t && AtMostEvery(n, first, every, t)
    ensures n <= 1 + (t - first) / every
  {
    if 0 < n {
      var q := (t - first) / every;
      assert t - first < (q + 1) * every;
      if q + 1 <= n - 1 {
        Monotone(q + 1, n - 1, every);
      }
    }
  }

  lemma Monotone(a: nat, b: nat, every: nat)
    requires a <= b
    ensures a * every <= b * every
  {
  }

  /** And one warning does come, if every look finds the dongle streaming. */
  lemma {:induction false} StreamingIsReported(h: nat, events: seq<Event>)
    requires Silent(events) && Ordered(h, events)
    requires forall i :: 0 <= i < |events| ==> events[i].running == Some(true)
    ensures 1 <= Warnings(NewWatch(h), events) <==> exists i :: 0 <= i < |events| && h + WEDGE_SILENCE <= events[i].at
  {
    StreamingRuns(h, events);
  }

  /** The last of the events is the latest: it decides whether a warning has come. */
  lemma {:induction false} StreamingRuns(h: nat, events: seq<Event>)
    requires Silent(events) && Ordered(h, events)
    requires forall i :: 0 <= i < |events| ==> events[i].running == Some(true)
    ensures var w := Run(NewWatch(h), events);
      && Streams(w, h)
      && (w.warnedAt.Some? <==> 1 <= Warnings(NewWatch(h), events))
      && (w.warnedAt.Some? <==> events != [] && h + WEDGE_SILENCE <= events[|events| - 1].at)
    decreases |events|
  {
    if events == [] {
    } else {
      var n := |events| - 1;
      StreamingRuns(h, events[..n]);
      StreamingStep(h, Run(NewWatch(h), events[..n]), events[n]);
    }
  }

  /** A watch of a silence since `h` whose looks have all found playback running. */
  ghost predicate Streams(w: Watch, h: nat) {
    && w.heardAt == h
    && (w.probed.Some? ==> w.probed.value.running == Some(true) && w.warnedAt.Some?)
  }

  lemma StreamingStep(h: nat, w: Watch, e: Event)
    requires Streams(w, h) && e.Passed? && e.running == Some(true) && h <= e.at
    ensures Streams(Step(w, e), h)
    ensures Step(w, e).warnedAt.Some? <==> w.warnedAt.Some? || h + WEDGE_SILENCE <= e.at
    ensures w.Warns(e.at, e.running) ==> h + WEDGE_SILENCE <= e.at
    ensures Step(w, e).warnedAt.Some? <==> w.warnedAt.Some? || w.Warns(e.at, e.running)
  {
  }

  /** Every warning rests on a look less than half a minute old that found playback running. */
  lemma WarningsRestOnEvidence(w: Watch, events: seq<Event>, i: nat)
    requires w.probed.None? && i < |events| && WarnsAt(w, events, i)
    ensures exists j: nat :: j <= i && ProbesAt(w, events, j) && events[j].running == Some(true)
                     && Since(events[i].at, events[j].at) < PROBE_EVERY
  {
    if ProbesAt(w, events, i) {
      assert ProbesAt(w, events, i) && events[i].running == Some(true);
    } else {
      var j := WhereProbed(w, events[..i]);
      assert events[..i][..j] == events[..j];
      assert ProbesAt(w, events, j);
    }
  }

  lemma {:induction false} WhereProbed(w: Watch, events: seq<Event>) returns (j: nat)
    requires w.probed.None? && Run(w, events).probed.Some?
    ensures j < |events| && ProbesAt(w, events, j)
    ensures Run(w, events).probed == Some(Probe(events[j].at, events[j].running))
    decreases |events|
  {
    var n := |events| - 1;
    if ProbesAt(w, events, n) {
      j := n;
    } else {
      j := WhereProbed(w, events[..n]);
      assert events[..n][..j] == events[..j];
    }
  }

  // ----- Each check, exactly -----

  /** Check `j` is the last before event `n` that looked at the audio side. */
  ghost predicate IsLastLook(w: Watch, events: seq<Event>, n: nat, j: nat) {
    && j < n <= |events| && ProbesAt(w, events, j)
    && forall k :: j < k < n ==> !ProbesAt(w, events, k)
  }

  /** Check `j` is the last before event `n` that warned. */
  ghost predicate IsLastWarning(w: Watch, events: seq<Event>, n: nat, j: nat) {
    && j < n <= |events| && WarnsAt(w, events, j)
    && forall k :: j < k < n ==> !WarnsAt(w, events, k)
  }

  /** What a watch remembers of a silence: its last look, and its last warning. */
  ghost predicate Remembers(h: nat, events: seq<Event>, n: nat)
    requires n <= |events|
  {
    var w, now := NewWatch(h), Run(NewWatch(h), events[..n]);
    && now.heardAt == h
    && (match now.probed
        case None => forall k :: 0 <= k < n ==> !ProbesAt(w, events, k)
        case Some(probe) =>
          exists j: nat :: IsLastLook(w, events, n, j) && probe == Probe(events[j].at, events[j].running))
    && (match now.warnedAt
        case None => forall k :: 0 <= k < n ==> !WarnsAt(w, events, k)
        case Some(at) => exists j: nat :: IsLastWarning(w, events, n, j) && at == events[j].at)
  }

  lemma {:induction false} SilenceIsRemembered(h: nat, events: seq<Event>, n: nat)
    requires Silent(events) && n <= |events|
    ensures Remembers(h, events, n)
  {
    if n == 0 {
    } else {
      SilenceIsRemembered(h, events, n - 1);
      assert events[..n][..n - 1] == events[..n - 1];
      LookIsRemembered(h, events, n);
      WarningIsRemembered(h, events, n);
    }
  }

  lemma {:induction false} LookIsRemembered(h: nat, events: seq<Event>, n: nat)
    requires 0 < n <= |events| && events[n - 1].Passed? && Remembers(h, events, n - 1)
    requires Run(NewWatch(h), events[..n]) == Step(Run(NewWatch(h), events[..n - 1]), events[n - 1])
    ensures var w, probed := NewWatch(h), Run(NewWatch(h), events[..n]).probed;
      match probed
      case None => forall k :: 0 <= k < n ==> !ProbesAt(w, events, k)
      case Some(probe) =>
        exists j: nat :: IsLastLook(w, events, n, j) && probe == Probe(events[j].at, events[j].running)
  {
    var w, before := NewWatch(h), Run(NewWatch(h), events[..n - 1]);
    if ProbesAt(w, events, n - 1) {
      assert IsLastLook(w, events, n, n - 1);
    } else if before.probed.Some? {
      var j: nat :| IsLastLook(w, events, n - 1, j) && before.probed.value == Probe(events[j].at, events[j].running);
      assert IsLastLook(w, events, n, j);
    }
  }

  lemma {:induction false} WarningIsRemembered(h: nat, events: seq<Event>, n: nat)
    requires 0 < n <= |events| && events[n - 1].Passed? && Remembers(h, events, n - 1)
    requires Run(NewWatch(h), events[..n]) == Step(Run(NewWatch(h), events[..n - 1]), events[n - 1])
    ensures var w, warnedAt := NewWatch(h), Run(NewWatch(h), events[..n]).warnedAt;
      match warnedAt
      case None => forall k :: 0 <= k < n ==> !WarnsAt(w, events, k)
      case Some(at) => exists j: nat :: IsLastWarning(w, events, n, j) && at == events[j].at
  {
    var w, before := NewWatch(h), Run(NewWatch(h), events[..n - 1]);
    if WarnsAt(w, events, n - 1) {
      assert IsLastWarning(w, events, n, n - 1);
    } else if before.warnedAt.Some? {
      var j: nat :| IsLastWarning(w, events, n - 1, j) && before.warnedAt.value == events[j].at;
      assert IsLastWarning(w, events, n, j);
    }
  }

  /** The last look there is by check `i`, its own included, found playback running. */
  ghost predicate HasEvidence(w: Watch, events: seq<Event>, i: nat) {
    exists j: nat :: IsLastLook(w, events, i + 1, j) && events[j].running == Some(true)
  }

  /**
   In a silence since `h`, a check looks at the audio side if and only if ten minutes have gone by,
   and half a minute since every look before.
   */
  lemma {:induction false} LooksExactly(h: nat, events: seq<Event>, i: nat)
    requires Silent(events) && Ordered(h, events) && i < |events|
    ensures ProbesAt(NewWatch(h), events, i) <==>
      && h + WEDGE_SILENCE <= events[i].at
      && forall j :: 0 <= j < i && ProbesAt(NewWatch(h), events, j) ==> events[j].at + PROBE_EVERY <= events[i].at
  {
    SilenceIsRemembered(h, events, i);
    LooksAreOld(h, events, i);
  }

  lemma {:induction false} LooksAreOld(h: nat, events: seq<Event>, i: nat)
    requires Silent(events) && Ordered(h, events) && i < |events| && Remembers(h, events, i)
    ensures var probed := Run(NewWatch(h), events[..i]).probed;
      probed.None? || Since(events[i].at, probed.value.at) >= PROBE_EVERY <==>
        forall j :: 0 <= j < i && ProbesAt(NewWatch(h), events, j) ==> events[j].at + PROBE_EVERY <= events[i].at
  {
    var w, before := NewWatch(h), Run(NewWatch(h), events[..i]);
    if before.probed.Some? {
      var last: nat :|
        IsLastLook(w, events, i, last) && before.probed.value == Probe(events[last].at, events[last].running);
      LastLookIsLatest(w, h, events, i, last);
    }
  }

  lemma {:induction false} LastLookIsLatest(w: Watch, h: nat, events: seq<Event>, i: nat, last: nat)
    requires Ordered(h, events) && i < |events| && IsLastLook(w, events, i, last)
    ensures events[last].at + PROBE_EVERY <= events[i].at <==>
      forall j :: 0 <= j < i && ProbesAt(w, events, j) ==> events[j].at + PROBE_EVERY <= events[i].at
  {
    forall j | 0 <= j < i && ProbesAt(w, events, j)
      ensures events[j].at <= events[last].at
    {
      assert j <= last;
    }
  }

  /**
   And it warns if and only if ten minutes have gone by, the last look found playback running, and
   a day has gone by since every warning before: so it is said again, once a day.
   */
  lemma {:induction false} WarnsExactly(h: nat, events: seq<Event>, i: nat)
    requires Silent(events) && Ordered(h, events) && i < |events|
    ensures WarnsAt(NewWatch(h), events, i) <==>
      && h + WEDGE_SILENCE <= events[i].at && HasEvidence(NewWatch(h), events, i)
      && forall j :: 0 <= j < i && WarnsAt(NewWatch(h), events, j) ==> events[j].at + WEDGE_REMINDER <= events[i].at
  {
    SilenceIsRemembered(h, events, i);
    EvidenceIsTheLastLook(h, events, i);
    WarningsAreOld(h, events, i);
  }

  lemma {:induction false} WarningsAreOld(h: nat, events: seq<Event>, i: nat)
    requires Silent(events) && Ordered(h, events) && i < |events| && Remembers(h, events, i)
    ensures var warnedAt := Run(NewWatch(h), events[..i]).warnedAt;
      warnedAt.None? || Since(events[i].at, warnedAt.value) >= WEDGE_REMINDER <==>
        forall j :: 0 <= j < i && WarnsAt(NewWatch(h), events, j) ==> events[j].at + WEDGE_REMINDER <= events[i].at
  {
    var w, before := NewWatch(h), Run(NewWatch(h), events[..i]);
    if before.warnedAt.Some? {
      var last: nat :| IsLastWarning(w, events, i, last) && before.warnedAt.value == events[last].at;
      LastWarningIsLatest(w, h, events, i, last);
    }
  }

  lemma {:induction false} LastWarningIsLatest(w: Watch, h: nat, events: seq<Event>, i: nat, last: nat)
    requires Ordered(h, events) && i < |events| && IsLastWarning(w, events, i, last)
    ensures events[last].at + WEDGE_REMINDER <= events[i].at <==>
      forall j :: 0 <= j < i && WarnsAt(w, events, j) ==> events[j].at + WEDGE_REMINDER <= events[i].at
  {
    forall j | 0 <= j < i && WarnsAt(w, events, j)
      ensures events[j].at <= events[last].at
    {
      assert j <= last;
    }
  }

  lemma {:induction false} EvidenceIsTheLastLook(h: nat, events: seq<Event>, i: nat)
    requires Silent(events) && i < |events| && Remembers(h, events, i)
    ensures var evidence := Run(NewWatch(h), events[..i]).Evidence(events[i].at, events[i].running);
      (evidence.Some? && evidence.value.running == Some(true)) <==> HasEvidence(NewWatch(h), events, i)
  {
    var w, before := NewWatch(h), Run(NewWatch(h), events[..i]);
    if ProbesAt(w, events, i) {
      EvidenceIsOf(w, events, i, i);
    } else if before.probed.Some? {
      var last: nat :|
        IsLastLook(w, events, i, last) && before.probed.value == Probe(events[last].at, events[last].running);
      EvidenceIsOf(w, events, i, last);
    }
  }

  lemma {:induction false} EvidenceIsOf(w: Watch, events: seq<Event>, i: nat, last: nat)
    requires IsLastLook(w, events, i + 1, last)
    ensures HasEvidence(w, events, i) <==> events[last].running == Some(true)
  {
    if HasEvidence(w, events, i) {
      var j: nat :| IsLastLook(w, events, i + 1, j) && events[j].running == Some(true);
      assert j == last;
    }
  }

  /** Whether a warning was issued since a dongle last spoke. */
  ghost predicate WarnedSinceSpoken(w: Watch, events: seq<Event>) {
    exists i :: 0 <= i < |events| && WarnsAt(w, events, i) && Silent(events[i..])
  }

  /**
   The recovery is reported exactly when the silence was: a warning is remembered until a dongle
   speaks, over every run, however the two alternate.
   */
  lemma {:induction false} RecoveryIsReportedIfTheSilenceWas(h: nat, events: seq<Event>)
    ensures Run(NewWatch(h), events).warnedAt.Some? <==> WarnedSinceSpoken(NewWatch(h), events)
    decreases |events|
  {
    if events == [] {
    } else {
      var w, n := NewWatch(h), |events| - 1;
      RecoveryIsReportedIfTheSilenceWas(h, events[..n]);
      WarnedOneEventLater(w, events);
    }
  }

  lemma {:induction false} WarnedOneEventLater(w: Watch, events: seq<Event>)
    requires events != []
    ensures var n := |events| - 1;
      WarnedSinceSpoken(w, events)
      <==> WarnsAt(w, events, n) || (WarnedSinceSpoken(w, events[..n]) && events[n].Passed?)
  {
    var n := |events| - 1;
    var most := events[..n];
    if WarnsAt(w, events, n) {
      assert Silent(events[n..]);
    }
    if WarnedSinceSpoken(w, most) && events[n].Passed? {
      var i :| 0 <= i < n && WarnsAt(w, most, i) && Silent(most[i..]);
      SameBefore(w, events, i);
      assert WarnsAt(w, events, i) && Silent(events[i..]);
    }
    if WarnedSinceSpoken(w, events) && !WarnsAt(w, events, n) {
      var i :| 0 <= i < |events| && WarnsAt(w, events, i) && Silent(events[i..]);
      SameBefore(w, events, i);
      assert WarnsAt(w, most, i) && Silent(most[i..]);
    }
  }

  lemma {:induction false} SameBefore(w: Watch, events: seq<Event>, i: nat)
    requires i < |events| - 1
    ensures var n := |events| - 1;
      && WarnsAt(w, events[..n], i) == WarnsAt(w, events, i)
      && (Silent(events[i..]) <==> Silent(events[..n][i..]) && events[n].Passed?)
  {
    var n := |events| - 1;
    assert events[..n][..i] == events[..i];
    assert events[i..] == events[..n][i..] + [events[n]];
  }
}
