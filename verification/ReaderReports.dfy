/**
 What the reader reports, over whole runs: a headset is said to be gone, charging, discharging or
 unavailable exactly as the last word of its dongle, the cable and the pass have it.
 */
module ReaderReports {
  import opened Prelude
  import opened Frame
  import opened Headsets
  import opened Sessions
  import SessionRuns
  import SessionInvariants
  import opened Readers
  import opened ReaderRuns
  import opened ReaderStories

  // ----- One visit -----

  /** The dongle has a session, or opens. */
  predicate Opens(r: ReaderState, dongle: Dongle, io: Io) {
    dongle.node in r.sessions || io.opens
  }

  /** The session a visit listens to, before it does. */
  function Session(r: ReaderState, dongle: Dongle, pass: Pass): State {
    r.Open(dongle, pass.now).sessions[dongle.node].state
  }

  /** A request is due that the device does not take. */
  predicate IsRefused(r: ReaderState, dongle: Dongle, pass: Pass, io: Io) {
    var s, p := Session(r, dongle, pass), r.PollOf(pass, io);
    SessionRuns.Asks(s, p) && !SessionRuns.Listened(s, p).GivesUp() && !p.written
  }

  /** The dongle opens, says something or nothing, and takes the request if one is due. */
  predicate Succeeds(r: ReaderState, dongle: Dongle, pass: Pass, io: Io) {
    Opens(r, dongle, io) && io.fetch.Report? && !IsRefused(r, dongle, pass, io)
  }

  /** The dongle is found gone, when it is listened to or when it is asked. */
  predicate IsLost(r: ReaderState, dongle: Dongle, pass: Pass, io: Io) {
    && Opens(r, dongle, io)
    && match io.fetch
       case FetchFailed(gone) => gone
       case Report(_) => IsRefused(r, dongle, pass, io) && io.write.WriteFailed? && io.write.gone
  }

  /** The level a report gives. */
  function LevelOf(battery: BatteryState): Option<nat> {
    match battery
    case Discharging(percent) => Some(percent)
    case Charging(known) => known
    case _ => None
  }

  /** A battery state that tells what a session knows, and whether the headset is on the cable. */
  predicate Tells(battery: BatteryState, s: State, wired: bool) {
    && (battery.Disconnected? <==> s.link == Down)
    && (battery.Charging? ==> wired && battery.known.Some?)
    && (battery.Discharging? ==> !wired)
    && LevelOf(battery) == if s.link == Down then None else s.level
  }

  /**
   What a visit does, in each case. If the pass succeeds, the report tells what the session
   knows after its poll, and the watch checks the dongle unless its headset is linked. If not, the
   battery is unavailable, and only a dongle that is gone loses its session, to whatever has
   its product next.
   */
  lemma {:induction false} VisitTells(r: ReaderState, dongle: Dongle, pass: Pass, io: Io)
    ensures if Succeeds(r, dongle, pass, io) then SuccessTells(r, dongle, pass, io)
            else FailureTells(r, dongle, pass, io)
  {
    if Succeeds(r, dongle, pass, io) {
      SucceedingVisit(r, dongle, pass, io);
    } else {
      FailingVisit(r, dongle, pass, io);
    }
  }

  lemma {:induction false} SucceedingVisit(r: ReaderState, dongle: Dongle, pass: Pass, io: Io)
    requires Succeeds(r, dongle, pass, io)
    ensures SuccessTells(r, dongle, pass, io)
  {
    VisitPollsTheSession(r, dongle, pass, io);
    OpeningFirst(r, dongle, pass, io);
    var open := r.Open(dongle, pass.now);
    var asked := open.Hear(dongle.node, r.PollOf(pass, io)).AskIfDue(dongle.node, pass, io.write);
    assert r.Visit(dongle, pass, io).0 == asked.CheckWedge(dongle.node, pass.now, io.playback);
  }

  lemma {:induction false} FailingVisit(r: ReaderState, dongle: Dongle, pass: Pass, io: Io)
    requires !Succeeds(r, dongle, pass, io)
    ensures FailureTells(r, dongle, pass, io)
  {
    if Opens(r, dongle, io) {
      VisitPollsTheSession(r, dongle, pass, io);
      OpeningFirst(r, dongle, pass, io);
    }
  }

  /** A pass that succeeds: the session is polled, and the watch told unless its headset is linked. */
  ghost predicate SuccessTells(r: ReaderState, dongle: Dongle, pass: Pass, io: Io) {
    var (after, h) := r.Visit(dongle, pass, io);
    var s := SessionRuns.Step(Session(r, dongle, pass), r.PollOf(pass, io));
    && h == Reported(dongle, h.battery, s.sample)
    && h.supportsBattery && h.Key() == HeadsetKey(VENDOR_ID, dongle.productId, "Audeze Maxwell")
    && Tells(h.battery, s, pass.wired)
    && dongle.node in after.sessions && after.sessions[dongle.node].state == s
    && (s.link != Up <==> after.trace[|after.trace| - 1] == Checked(pass.now, io.playback))
  }

  /** One that fails: only a dongle that is gone loses its session, which hands on its link. */
  ghost predicate FailureTells(r: ReaderState, dongle: Dongle, pass: Pass, io: Io) {
    var (after, h) := r.Visit(dongle, pass, io);
    var open := r.Open(dongle, pass.now);
    && h == Reported(dongle, Unavailable, 0)
    && h.supportsBattery && h.Key() == HeadsetKey(VENDOR_ID, dongle.productId, "Audeze Maxwell")
    && if IsLost(r, dongle, pass, io) then
         && after.sessions.Keys == r.sessions.Keys - {dongle.node}
         && after.Inherited(open.sessions[dongle.node].productId)
            == SessionRuns.Step(Session(r, dongle, pass), r.PollOf(pass, io)).link
       else
         after.sessions.Keys == if Opens(r, dongle, io) then open.sessions.Keys else r.sessions.Keys
  }

  // ----- The last word -----

  /** The last message of the last poll that heard something. */
  function LastWord(polls: seq<SessionRuns.Poll>): Option<Message> {
    if polls == [] then
      None
    else
      var p := polls[|polls| - 1];
      if p.Quiet() then LastWord(polls[..|polls| - 1]) else Some(p.fetched.value[|p.fetched.value| - 1])
  }

  /** The dongle's last word was that the headset is gone - or the belief inherited, without one. */
  predicate IsGone(story: Story) {
    var word := LastWord(story.polls);
    if word.Some? then word.value == Link(false) else story.link == Down
  }

  /** That is what a session believes: no request, and no giving up, makes a headset gone or brings it back. */
  lemma {:induction false} GoneIsTheLastWord(story: Story)
    ensures story.End().link == Down <==> IsGone(story)
    decreases |story.polls|
  {
    if story.polls == [] {
    } else {
      var n := |story.polls| - 1;
      var before := story.(polls := story.polls[..n]);
      GoneIsTheLastWord(before);
      GoneAfter(before.End(), story.polls[n]);
    }
  }

  lemma {:induction false} GoneAfter(s: State, p: SessionRuns.Poll)
    ensures SessionRuns.Step(s, p).link == Down
       <==> if p.Quiet() then s.link == Down else p.fetched.value[|p.fetched.value| - 1] == Link(false)
  {
    if !p.Quiet() {
      HeardReport(s, p.fetched.value, p.readings);
    }
  }

  // ----- Whole runs -----

  /**
   What is reported of a dongle by a visit: `Disconnected` exactly if the pass succeeds and the
   last word is that its headset is gone; `Charging` only on the cable, `Discharging` only off it;
   a level exactly if the session holds one; and `Unavailable` if the pass fails.
   */
  ghost predicate IsTruthful(before: ReaderState, dongle: Dongle, pass: Pass, io: Io, h: Headset) {
    && h.supportsBattery && h.Key() == HeadsetKey(VENDOR_ID, dongle.productId, "Audeze Maxwell")
    && if Succeeds(before, dongle, pass, io) then
         var story := StoryOf(before.Visit(dongle, pass, io).0.trace, dongle.node);
         && story.Some?
         && (h.battery.Disconnected? <==> IsGone(story.value))
         && (h.battery.Charging? ==> pass.wired && h.battery.known.Some?)
         && (h.battery.Discharging? ==> !pass.wired)
         && LevelOf(h.battery) == story.value.End().level
         && h.sample == Some(story.value.End().sample)
       else
         h.battery == Unavailable && h.sample == Some(0)
  }

  lemma {:induction false} VisitIsTruthful(r: ReaderState, dongle: Dongle, pass: Pass, io: Io)
    requires AllTold(r, pass.now) && Sound(r)
    ensures IsTruthful(r, dongle, pass, io, r.Visit(dongle, pass, io).1)
  {
    VisitTells(r, dongle, pass, io);
    if Succeeds(r, dongle, pass, io) {
      var after := r.Visit(dongle, pass, io).0;
      VisitIsTold(r, dongle, pass, io, pass.now);
      VisitIsSound(r, dongle, pass, io, false);
      assert IsTold(after, dongle.node, pass.now);
      GoneIsTheLastWord(StoryOf(after.trace, dongle.node).value);
      assert SessionInvariants.Inv(after.sessions[dongle.node].state);
    }
  }

  /** What visit `d` of a pass reports, and the trace on either side, `n` visits into the pass. */
  lemma {:induction false} VisitOfPass(r: ReaderState, dongles: seq<Dongle>, pass: Pass, ios: seq<Io>, d: nat, n: nat)
    requires d < n <= |dongles| == |ios|
    ensures var before := r.VisitAll(dongles[..d], pass, ios[..d]).0;
      var (after, headsets) := r.VisitAll(dongles[..n], pass, ios[..n]);
      && |headsets| == n && headsets[d] == before.Visit(dongles[d], pass, ios[d]).1
      && before.trace <= after.trace
    decreases n
  {
    OneMoreVisit(r, dongles, pass, ios, n - 1);
    VisitGrows(r.VisitAll(dongles[..n - 1], pass, ios[..n - 1]).0, dongles[n - 1], pass, ios[n - 1]);
    if d < n - 1 {
      VisitOfPass(r, dongles, pass, ios, d, n - 1);
    } else {
      CountVisits(r, dongles[..d], pass, ios[..d]);
    }
  }

  lemma {:induction false} CountVisits(r: ReaderState, dongles: seq<Dongle>, pass: Pass, ios: seq<Io>)
    requires |ios| == |dongles|
    ensures |r.VisitAll(dongles, pass, ios).1| == |dongles|
    decreases |dongles|
  {
    if dongles == [] {
    } else {
      CountVisits(r, dongles[..|dongles| - 1], pass, ios[..|dongles| - 1]);
    }
  }

  lemma {:induction false} FirstVisitsGrow(r: ReaderState, dongles: seq<Dongle>, pass: Pass, ios: seq<Io>, d: nat)
    requires d <= |dongles| == |ios|
    ensures r.trace <= r.VisitAll(dongles[..d], pass, ios[..d]).0.trace
  {
    if d == 0 {
      assert dongles[..0] == [] && ios[..0] == [];
    } else {
      OneMoreVisit(r, dongles, pass, ios, d - 1);
      VisitGrows(r.VisitAll(dongles[..d - 1], pass, ios[..d - 1]).0, dongles[d - 1], pass, ios[d - 1]);
      FirstVisitsGrow(r, dongles, pass, ios, d - 1);
    }
  }

  lemma {:induction false} VisitGrows(r: ReaderState, dongle: Dongle, pass: Pass, io: Io)
    ensures r.trace <= r.Visit(dongle, pass, io).0.trace
  {
  }

  /**
   Over every run, every report is truthful: it is that of a visit to the dongle at its place in the
   pass, which finds the reader somewhere between the state before the poll and the one after it.
   */
  lemma {:induction false} ReportsAreTruthful(
    states: seq<ReaderState>, polls: seq<Poll>, reports: seq<seq<Headset>>, i: nat, d: nat)
    returns (before: ReaderState)
    requires IsRun(states, polls, reports) && Timely(polls) && i < |polls| && d < |polls[i].dongles|
    ensures |reports[i]| == |polls[i].dongles|
    ensures states[i].trace <= before.trace <= states[i + 1].trace
    ensures reports[i][d] == before.Visit(polls[i].dongles[d], polls[i].pass, polls[i].ios[d]).1
    ensures IsTruthful(before, polls[i].dongles[d], polls[i].pass, polls[i].ios[d], reports[i][d])
  {
    SessionsAreTold(states, polls, reports, i);
    ReadingsAreNumbered(states, polls, reports, i, false);
    before := ReportIsTruthful(states[i], polls[i], states[i + 1], reports[i], Clock(polls, i), d);
  }

  lemma {:induction false} ReportIsTruthful(
    was: ReaderState, p: Poll, after: ReaderState, headsets: seq<Headset>, clock: nat, d: nat)
    returns (before: ReaderState)
    requires AllTold(was, clock) && Sound(was) && clock <= p.pass.now && d < |p.dongles| == |p.ios|
    requires Reconciles(was, p.dongles, p.pass, p.ios, after, headsets)
    ensures |headsets| == |p.dongles|
    ensures was.trace <= before.trace <= after.trace
    ensures headsets[d] == before.Visit(p.dongles[d], p.pass, p.ios[d]).1
    ensures IsTruthful(before, p.dongles[d], p.pass, p.ios[d], headsets[d])
  {
    var retained := Retained(was, p, after, headsets);
    RetainingIsTold(was, Nodes(p.dongles), retained, clock);
    before := retained.VisitAll(p.dongles[..d], p.pass, p.ios[..d]).0;
    VisitAllIsTold(retained, p.dongles[..d], p.pass, p.ios[..d], clock);
    VisitAllIsSound(retained, p.dongles, p.dongles[..d], p.pass, p.ios[..d], false);
    VisitOfPass(retained, p.dongles, p.pass, p.ios, d, |p.dongles|);
    assert p.dongles[..|p.dongles|] == p.dongles && p.ios[..|p.ios|] == p.ios;
    FirstVisitsGrow(retained, p.dongles, p.pass, p.ios, d);
    VisitIsTruthful(before, p.dongles[d], p.pass, p.ios[d]);
  }
}
