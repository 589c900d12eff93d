/**
 Whole runs of the reader: what a visit does to the sessions, where every level handed out comes
 from, and how the readings are numbered.
 */
module ReaderRuns {
  import opened Prelude
  import opened Frame
  import opened Headsets
  import opened Sessions
  import SessionRuns
  import opened SessionInvariants
  import opened Readers

  /** One poll: the dongles listed, the instant and the settings, and what was run into. */
  datatype Poll = Poll(dongles: seq<Dongle>, pass: Pass, ios: seq<Io>)

  const INITIAL: ReaderState := ReaderState(map[], map[], [], [], None, [])

  /** The states a reader goes through, from the first, and what it reports on each poll. */
  ghost predicate IsRun(states: seq<ReaderState>, polls: seq<Poll>, reports: seq<seq<Headset>>) {
    && |states| == |polls| + 1 && |reports| == |polls| && states[0] == INITIAL
    && forall i :: 0 <= i < |polls| ==>
         && |polls[i].ios| == |polls[i].dongles|
         && Reconciles(states[i], polls[i].dongles, polls[i].pass, polls[i].ios, states[i + 1], reports[i])
  }

  /** A run goes on with one more poll. */
  lemma {:induction false} OneMorePoll(
    states: seq<ReaderState>, polls: seq<Poll>, reports: seq<seq<Headset>>,
    poll: Poll, after: ReaderState, headsets: seq<Headset>)
    requires IsRun(states, polls, reports) && |poll.ios| == |poll.dongles|
    requires Reconciles(states[|polls|], poll.dongles, poll.pass, poll.ios, after, headsets)
    ensures IsRun(states + [after], polls + [poll], reports + [headsets])
  {
  }

  /** The instant of the last of the first `i` polls. */
  function Clock(polls: seq<Poll>, i: nat): nat
    requires i <= |polls|
  {
    if i == 0 then 0 else polls[i - 1].pass.now
  }

  /** Time never runs backwards. */
  ghost predicate Timely(polls: seq<Poll>) {
    forall j, k :: 0 <= j < k < |polls| ==> polls[j].pass.now <= polls[k].pass.now
  }

  /** What a pass closes before it listens. */
  lemma Retained(
    before: ReaderState, poll: Poll, after: ReaderState, headsets: seq<Headset>) returns (retained: ReaderState)
    requires |poll.ios| == |poll.dongles|
    requires Reconciles(before, poll.dongles, poll.pass, poll.ios, after, headsets)
    ensures Retains(before, Nodes(poll.dongles), retained)
    ensures (after, headsets) == retained.VisitAll(poll.dongles, poll.pass, poll.ios)
  {
    retained :| Retains(before, Nodes(poll.dongles), retained)
                && (after, headsets) == retained.VisitAll(poll.dongles, poll.pass, poll.ios);
  }

  // ----- A visit is a poll of one session -----

  /**
   What a visit does to the session of the dongle it visits is exactly one poll of it, in the
   sense of `SessionRuns`.
   */
  lemma VisitPollsTheSession(r: ReaderState, dongle: Dongle, pass: Pass, io: Io)
    requires dongle.node in r.sessions || io.opens
    ensures var s := r.Open(dongle, pass.now).sessions[dongle.node].state;
      var listened := r.ListenTo(dongle, pass, io).0;
      && dongle.node in listened.sessions
      && listened.sessions[dongle.node].state == SessionRuns.Step(s, r.PollOf(pass, io))
  {
  }

  /** Listening opens first, if it can, and then goes on as if the session had been open. */
  lemma OpeningFirst(r: ReaderState, dongle: Dongle, pass: Pass, io: Io)
    requires dongle.node in r.sessions || io.opens
    ensures r.ListenTo(dongle, pass, io) == r.Open(dongle, pass.now).ListenTo(dongle, pass, io)
  {
  }

  lemma ListeningLeavesTheOthers(r: ReaderState, dongle: Dongle, pass: Pass, io: Io, node: Node)
    requires node != dongle.node
    ensures var after := r.ListenTo(dongle, pass, io).0;
      && (node in r.sessions <==> node in after.sessions)
      && (node in r.sessions ==> after.sessions[node] == r.sessions[node])
  {
  }

  /** The other sessions are not touched by it. */
  lemma VisitLeavesTheOthers(r: ReaderState, dongle: Dongle, pass: Pass, io: Io, node: Node)
    requires node != dongle.node
    ensures var after := r.Visit(dongle, pass, io).0;
      && (node in r.sessions <==> node in after.sessions)
      && (node in r.sessions ==> after.sessions[node] == r.sessions[node])
  {
    ListeningLeavesTheOthers(r, dongle, pass, io, node);
  }

  // ----- Where the levels come from -----

  /**
   Every session's level is in the log at its number, from its product, is at most 100 and is held
   while the link is up; and no two sessions hold the same reading.
   */
  ghost predicate Sound(r: ReaderState) {
    && |r.sources| == |r.log|
    && (forall node <- r.sessions ::
          && Inv(r.sessions[node].state) && LevelFromLog(r.sessions[node].state, r.log)
          && IsFrom(r.sources, r.sessions[node].state.sample, r.sessions[node].productId))
    && (forall m, n :: m in r.sessions && n in r.sessions && m != n && r.sessions[m].state.sample != 0 ==>
          r.sessions[m].state.sample != r.sessions[n].state.sample)
  }

  /** The reading of this number, if there is one, is from a dongle of this product. */
  ghost predicate IsFrom(sources: seq<nat>, number: nat, productId: nat) {
    1 <= number ==> number <= |sources| && sources[number - 1] == productId
  }

  /**
   What has been received: every level, and the product it is from - which only matters as long as
   the nodes listed stay the same dongles.
   */
  datatype Evidence = Evidence(log: seq<nat>, sources: seq<nat>, same: bool)
  {
    ghost predicate Shows(number: nat, level: nat, productId: nat) {
      && 1 <= number <= |log| && log[number - 1] == level
      && (same ==> IsFrom(sources, number, productId))
    }

    ghost predicate Within(more: Evidence) {
      log <= more.log && sources <= more.sources && same == more.same
    }
  }

  function EvidenceOf(r: ReaderState, same: bool): Evidence {
    Evidence(r.log, r.sources, same)
  }

  /** A level reported was received, under the number it is reported with. */
  ghost predicate FromLog(h: Headset, evidence: Evidence) {
    var level := match h.battery
      case Discharging(percent) => Some(percent)
      case Charging(known) => known
      case _ => None;
    && (h.battery.Charging? ==> level.Some?)
    && (level.Some? ==> h.sample.Some? && evidence.Shows(h.sample.value, level.value, h.productId))
  }

  ghost predicate AllFromLog(headsets: seq<Headset>, evidence: Evidence) {
    forall i :: 0 <= i < |headsets| ==> FromLog(headsets[i], evidence)
  }

  lemma {:induction false} HearNumbersUpward(s: State, said: seq<Message>, readings: nat)
    ensures var r := s.Hear(said, readings);
      r.sample == s.sample || readings < r.sample <= readings + |Levels(said)|
    decreases |said|
  {
    if said == [] {
    } else {
      HearNumbersUpward(s.HearOne(said[0], readings + 1), said[1..], readings + if said[0].Battery? then 1 else 0);
    }
  }

  /** A level stays in the log as the log grows. */
  lemma LogGrows(s: State, log: seq<nat>, more: seq<nat>)
    requires LevelFromLog(s, log)
    ensures LevelFromLog(s, log + more)
  {
  }

  lemma OpenIsSound(r: ReaderState, dongle: Dongle, now: nat)
    requires Sound(r)
    ensures Sound(r.Open(dongle, now))
  {
  }

  lemma HearIsSound(r: ReaderState, node: Node, poll: SessionRuns.Poll)
    requires Sound(r) && node in r.sessions && poll.fetched.Some?
    requires forall m <- poll.fetched.value :: m.Battery? ==> m.level <= 100
    ensures Sound(r.Hear(node, poll))
    ensures EvidenceOf(r, true).Within(EvidenceOf(r.Hear(node, poll), true))
  {
    var s, said := r.sessions[node].state, poll.fetched.value;
    HearKeepsInv(s, said, |r.log|);
    HeardLevelIsNumbered(s, said, r.log);
    HearNumbersUpward(s, said, |r.log|);
    forall n | n in r.sessions && n != node
      ensures LevelFromLog(r.sessions[n].state, r.log + Levels(said))
    {
      LogGrows(r.sessions[n].state, r.log, Levels(said));
    }
  }

  lemma AskIsSound(r: ReaderState, node: Node, pass: Pass, write: Write)
    requires Sound(r) && node in r.sessions
    ensures Sound(r.AskIfDue(node, pass, write))
  {
  }

  lemma ListenIsSound(r: ReaderState, dongle: Dongle, pass: Pass, io: Io)
    requires Sound(r)
    ensures var after := r.ListenTo(dongle, pass, io).0;
      Sound(after) && EvidenceOf(r, true).Within(EvidenceOf(after, true))
  {
    if dongle.node in r.sessions || io.opens {
      var open := r.Open(dongle, pass.now);
      OpenIsSound(r, dongle, pass.now);
      if io.fetch.Report? {
        var heard := open.Hear(dongle.node, open.PollOf(pass, io));
        HearIsSound(open, dongle.node, open.PollOf(pass, io));
        AskIsSound(heard, dongle.node, pass, io.write);
        CheckIsSound(heard.AskIfDue(dongle.node, pass, io.write), dongle.node, pass.now, io.playback);
      }
    }
  }

  lemma CheckIsSound(r: ReaderState, node: Node, now: nat, playback: Option<bool>)
    requires Sound(r) && node in r.sessions
    ensures Sound(r.CheckWedge(node, now, playback))
  {
  }

  /** Each node is listed as one dongle, and as the one its session was opened on. */
  ghost predicate SameDongles(r: ReaderState, dongles: seq<Dongle>) {
    && (forall d <- dongles :: SameDongle(r, d))
    && (forall d, e :: d in dongles && e in dongles && d.node == e.node ==> d.productId == e.productId)
  }

  /** The session a dongle's node has, if it has one, is of the dongle's product. */
  ghost predicate SameDongle(r: ReaderState, dongle: Dongle) {
    dongle.node in r.sessions ==> r.sessions[dongle.node].productId == dongle.productId
  }

  lemma VisitIsSound(r: ReaderState, dongle: Dongle, pass: Pass, io: Io, same: bool)
    requires Sound(r) && (same ==> SameDongle(r, dongle))
    ensures var (after, headset) := r.Visit(dongle, pass, io);
      Sound(after) && EvidenceOf(r, same).Within(EvidenceOf(after, same)) && FromLog(headset, EvidenceOf(after, same))
  {
    ListenIsSound(r, dongle, pass, io);
    var (after, outcome) := r.ListenTo(dongle, pass, io);
    if outcome.Reading? {
      ReadingIsTheSessions(r, dongle, pass, io);
    }
  }

  lemma ReadingIsTheSessions(r: ReaderState, dongle: Dongle, pass: Pass, io: Io)
    requires r.ListenTo(dongle, pass, io).1.Reading?
    ensures var (after, outcome) := r.ListenTo(dongle, pass, io);
      && dongle.node in after.sessions
      && (SameDongle(r, dongle) ==> after.sessions[dongle.node].productId == dongle.productId)
      && var state := after.sessions[dongle.node].state;
        outcome == Reading(state.BatteryState(pass.wired), state.sample)
  {
  }

  lemma VisitKeepsSameDongles(r: ReaderState, dongle: Dongle, pass: Pass, io: Io, dongles: seq<Dongle>)
    requires SameDongles(r, dongles) && dongle in dongles
    ensures SameDongles(r.Visit(dongle, pass, io).0, dongles)
  {
    var after := r.Visit(dongle, pass, io).0;
    forall d <- dongles | d.node in after.sessions
      ensures after.sessions[d.node].productId == d.productId
    {
      if d.node != dongle.node {
        VisitLeavesTheOthers(r, dongle, pass, io, d.node);
      }
    }
  }

  lemma {:induction false} VisitAllIsSound(
    r: ReaderState, all: seq<Dongle>, dongles: seq<Dongle>, pass: Pass, ios: seq<Io>, same: bool)
    requires Sound(r) && |ios| == |dongles| && dongles <= all && (same ==> SameDongles(r, all))
    ensures var (after, headsets) := r.VisitAll(dongles, pass, ios);
      && Sound(after) && EvidenceOf(r, same).Within(EvidenceOf(after, same))
      && AllFromLog(headsets, EvidenceOf(after, same)) && |headsets| == |dongles|
      && (same ==> SameDongles(after, all))
    decreases |dongles|
  {
    if dongles == [] {
    } else {
      var n := |dongles| - 1;
      var (before, headsets) := r.VisitAll(dongles[..n], pass, ios[..n]);
      VisitAllIsSound(r, all, dongles[..n], pass, ios[..n], same);
      assert dongles[n] == all[n];
      VisitIsSound(before, dongles[n], pass, ios[n], same);
      if same {
        VisitKeepsSameDongles(before, dongles[n], pass, ios[n], all);
      }
      MoreEvidence(headsets, EvidenceOf(before, same), EvidenceOf(before.Visit(dongles[n], pass, ios[n]).0, same));
    }
  }

  lemma MoreEvidence(headsets: seq<Headset>, evidence: Evidence, more: Evidence)
    requires AllFromLog(headsets, evidence) && evidence.Within(more)
    ensures AllFromLog(headsets, more)
  {
  }

  /**
   Over every run: every level reported is one a dongle sent, with its number in the order of
   arrival, across sessions; the numbers that sessions hold are distinct; and as long as the nodes
   listed stay the same dongles, the level was sent by a dongle of the product reported.
   */
  lemma {:induction false} ReadingsAreNumbered(
    states: seq<ReaderState>, polls: seq<Poll>, reports: seq<seq<Headset>>, i: nat, same: bool)
    requires IsRun(states, polls, reports) && i <= |polls|
    requires same ==> forall j :: 0 <= j < i ==> SameDongles(states[j], polls[j].dongles)
    ensures Sound(states[i])
    ensures forall j :: 0 <= j < i ==> AllFromLog(reports[j], EvidenceOf(states[i], same))
    decreases i
  {
    if i == 0 {
    } else {
      ReadingsAreNumbered(states, polls, reports, i - 1, same);
      var p := polls[i - 1];
      PassIsSound(states[i - 1], p.dongles, p.pass, p.ios, states[i], reports[i - 1], same);
      forall j | 0 <= j < i - 1
        ensures AllFromLog(reports[j], EvidenceOf(states[i], same))
      {
        MoreEvidence(reports[j], EvidenceOf(states[i - 1], same), EvidenceOf(states[i], same));
      }
    }
  }

  lemma PassIsSound(
    before: ReaderState, dongles: seq<Dongle>, pass: Pass, ios: seq<Io>,
    after: ReaderState, headsets: seq<Headset>, same: bool)
    requires Sound(before) && |ios| == |dongles| && Reconciles(before, dongles, pass, ios, after, headsets)
    requires same ==> SameDongles(before, dongles)
    ensures Sound(after) && EvidenceOf(before, same).Within(EvidenceOf(after, same))
    ensures AllFromLog(headsets, EvidenceOf(after, same)) && |headsets| == |dongles|
  {
    var retained := Retained(before, Poll(dongles, pass, ios), after, headsets);
    VisitAllIsSound(retained, dongles, dongles, pass, ios, same);
  }
}
