/**
 Which silences are asked about, over whole runs of the reader: the silence is the watch's, and
 outlives the sessions that come and go while it lasts.
 */
module ReaderSilence {
  import opened Prelude
  import opened Frame
  import opened Headsets
  import opened Sessions
  import SessionRuns
  import Wedge
  import opened SessionInvariants
  import opened Readers
  import opened ReaderRuns
  import opened ReaderStories

  // ----- The order of a trace, and the requests in it -----

  function When(act: Act): nat {
    if act.Polled? then act.poll.now else act.at
  }

  /** Nothing in the trace is earlier than what comes before it, or later than `clock`. */
  ghost predicate InOrder(trace: seq<Act>, clock: nat) {
    && (forall k :: 0 <= k < |trace| ==> When(trace[k]) <= clock)
    && (forall j, k :: 0 <= j < k < |trace| ==> When(trace[j]) <= When(trace[k]))
  }

  /** The poll at `k` sends a request, by what the trace has of its session until then. */
  ghost predicate IsSent(trace: seq<Act>, k: nat) {
    && k < |trace| && trace[k].Polled?
    && var story := StoryOf(trace[..k], trace[k].node);
      story.Some? && SessionRuns.Sends(story.value.End(), trace[k].poll)
  }

  /** A request is in the trace right after the poll that sends it, and nowhere else. */
  ghost predicate WellAsked(trace: seq<Act>) {
    && (forall k: nat :: IsSent(trace, k) ==> k + 1 < |trace| && trace[k + 1].Asked?)
    && (forall k: nat :: k < |trace| && trace[k].Asked? ==> 0 < k && IsSent(trace, k - 1))
  }

  lemma IsSentInMore(trace: seq<Act>, more: seq<Act>, k: nat)
    requires k < |trace|
    ensures IsSent(trace + more, k) <==> IsSent(trace, k)
  {
    assert (trace + more)[..k] == trace[..k];
  }

  /** Acts that neither poll nor ask may follow anything. */
  lemma {:induction false} OtherActs(trace: seq<Act>, more: seq<Act>)
    requires WellAsked(trace) && forall act <- more :: !act.Polled? && !act.Asked?
    ensures WellAsked(trace + more)
  {
    var all := trace + more;
    assert forall k :: |trace| <= k < |all| ==> all[k] in more;
    forall k: nat | IsSent(all, k)
      ensures k + 1 < |all| && all[k + 1].Asked?
    {
      IsSentInMore(trace, more, k);
    }
    forall k: nat | k < |all| && all[k].Asked?
      ensures 0 < k && IsSent(all, k - 1)
    {
      IsSentInMore(trace, more, k - 1);
    }
  }

  /** So may a poll, with its request if it sends one. */
  lemma {:induction false} PollAndRequest(trace: seq<Act>, poll: Act, asked: seq<Act>)
    requires WellAsked(trace) && poll.Polled? && |asked| <= 1
    requires IsSent(trace + [poll], |trace|) <==> asked != [] && asked[0].Asked?
    requires forall act <- asked :: !act.Polled?
    ensures WellAsked(trace + [poll] + asked)
  {
    var all := trace + [poll] + asked;
    assert all == trace + ([poll] + asked);
    IsSentInMore(trace + [poll], asked, |trace|);
    forall k: nat | IsSent(all, k)
      ensures k + 1 < |all| && all[k + 1].Asked?
    {
      if k < |trace| {
        IsSentInMore(trace, [poll] + asked, k);
      }
    }
    forall k: nat | k < |all| && all[k].Asked?
      ensures 0 < k && IsSent(all, k - 1)
    {
      if k < |trace| {
        IsSentInMore(trace, [poll] + asked, k - 1);
      }
    }
  }

  /** What a visit to an open session adds to the trace: its poll, what asking does, and a check. */
  lemma ListeningAdds(r: ReaderState, dongle: Dongle, pass: Pass, io: Io) returns (asked: seq<Act>, checked: seq<Act>)
    requires dongle.node in r.sessions
    ensures var poll := Polled(dongle.node, r.sessions[dongle.node].productId, r.PollOf(pass, io));
      r.ListenTo(dongle, pass, io).0.trace == r.trace + [poll] + asked + checked
    ensures |asked| <= 1 && forall act <- asked :: !act.Polled? && act.at == pass.now
    ensures SessionRuns.Sends(r.sessions[dongle.node].state, r.PollOf(pass, io))
       <==> asked != [] && asked[0] == Asked(dongle.node, r.sessions[dongle.node].productId, pass.now)
    ensures forall act <- asked :: act.Asked? || act.GaveUp?
    ensures asked != [] && asked[0].Asked? ==> SessionRuns.Sends(r.sessions[dongle.node].state, r.PollOf(pass, io))
    ensures forall act <- checked :: act.Checked? && act.at == pass.now
  {
    var poll := r.PollOf(pass, io);
    asked, checked := [], [];
    if io.fetch.Report? {
      var heard := r.Hear(dongle.node, poll);
      var next := heard.AskIfDue(dongle.node, pass, io.write);
      if SessionRuns.Asks(r.sessions[dongle.node].state, poll) {
        asked := heard.Asking(dongle.node, pass.now, io.write.Taken?);
      }
      assert next.trace == heard.trace + asked;
      if !heard.AskFails(dongle.node, pass, io.write) && next.CheckWedge(dongle.node, pass.now, io.playback) != next {
        checked := [Checked(pass.now, io.playback)];
      }
    }
  }

  /** A trace in order, with its requests where they belong. */
  ghost predicate Sound(trace: seq<Act>, clock: nat) {
    InOrder(trace, clock) && WellAsked(trace)
  }

  /** What happens at `now` comes after all that was over by then. */
  lemma {:induction false} LaterActs(trace: seq<Act>, more: seq<Act>, now: nat)
    requires InOrder(trace, now) && forall act <- more :: When(act) == now
    ensures InOrder(trace + more, now)
  {
    var all := trace + more;
    assert forall k :: |trace| <= k < |all| ==> all[k] in more;
  }

  lemma {:induction false} ListeningIsSound(r: ReaderState, dongle: Dongle, pass: Pass, io: Io)
    requires dongle.node in r.sessions && AllTold(r, pass.now) && Sound(r.trace, pass.now)
    ensures Sound(r.ListenTo(dongle, pass, io).0.trace, pass.now)
  {
    var poll := Polled(dongle.node, r.sessions[dongle.node].productId, r.PollOf(pass, io));
    var asked, checked := ListeningAdds(r, dongle, pass, io);
    assert IsTold(r, dongle.node, pass.now);
    assert (r.trace + [poll])[..|r.trace|] == r.trace;
    PollAndRequest(r.trace, poll, asked);
    OtherActs(r.trace + [poll] + asked, checked);
    LaterActs(r.trace, [poll], pass.now);
    LaterActs(r.trace + [poll], asked, pass.now);
    LaterActs(r.trace + [poll] + asked, checked, pass.now);
  }

  lemma {:induction false} OpenIsSound(r: ReaderState, dongle: Dongle, now: nat)
    requires Sound(r.trace, now)
    ensures Sound(r.Open(dongle, now).trace, now)
  {
    if dongle.node !in r.sessions {
      var opening := [Opening(dongle.node, dongle.productId, r.Inherited(dongle.productId), now)];
      OtherActs(r.trace, opening);
      LaterActs(r.trace, opening, now);
    }
  }

  lemma {:induction false} VisitIsSound(r: ReaderState, dongle: Dongle, pass: Pass, io: Io)
    requires AllTold(r, pass.now) && Sound(r.trace, pass.now)
    ensures Sound(r.Visit(dongle, pass, io).0.trace, pass.now)
  {
    if dongle.node in r.sessions || io.opens {
      OpenIsTold(r, dongle, pass.now, pass.now);
      OpenIsSound(r, dongle, pass.now);
      OpeningFirst(r, dongle, pass, io);
      ListeningIsSound(r.Open(dongle, pass.now), dongle, pass, io);
    }
  }

  lemma {:induction false} VisitAllIsSound(r: ReaderState, dongles: seq<Dongle>, pass: Pass, ios: seq<Io>, clock: nat)
    requires AllTold(r, clock) && Sound(r.trace, clock) && clock <= pass.now && |ios| == |dongles|
    ensures Sound(r.VisitAll(dongles, pass, ios).0.trace, pass.now)
    decreases |dongles|
  {
    if dongles == [] {
    } else {
      var n := |dongles| - 1;
      var before := r.VisitAll(dongles[..n], pass, ios[..n]).0;
      VisitAllIsSound(r, dongles[..n], pass, ios[..n], clock);
      VisitAllIsTold(r, dongles[..n], pass, ios[..n], clock);
      VisitIsSound(before, dongles[n], pass, ios[n]);
    }
  }

  /**
   Over every run, the trace is in order, and a request is in it exactly after each poll that
   sends one.
   */
  lemma {:induction false} TraceIsSound(
    states: seq<ReaderState>, polls: seq<Poll>, reports: seq<seq<Headset>>, i: nat)
    requires IsRun(states, polls, reports) && Timely(polls) && i <= |polls|
    ensures Sound(states[i].trace, Clock(polls, i))
    decreases i
  {
    if i == 0 {
    } else {
      TraceIsSound(states, polls, reports, i - 1);
      SessionsAreTold(states, polls, reports, i - 1);
      PassIsSound(states[i - 1], polls[i - 1], states[i], reports[i - 1], Clock(polls, i - 1));
    }
  }

  lemma {:induction false} PassIsSound(
    before: ReaderState, p: Poll, after: ReaderState, headsets: seq<Headset>, clock: nat)
    requires |p.ios| == |p.dongles| && Reconciles(before, p.dongles, p.pass, p.ios, after, headsets)
    requires AllTold(before, clock) && Sound(before.trace, clock) && clock <= p.pass.now
    ensures Sound(after.trace, p.pass.now)
  {
    var retained := Retained(before, p, after, headsets);
    RetainingIsTold(before, Nodes(p.dongles), retained, clock);
    VisitAllIsSound(retained, p.dongles, p.pass, p.ios, clock);
  }

  // ----- What a session was like when a silence began, and its polls since -----

  /** A session as it was at some point, or as it was opened after that, and its polls since. */
  datatype Window = Window(start: State, polls: seq<SessionRuns.Poll>)
  {
    function End(): State {
      SessionRuns.Run(start, polls)
    }
  }

  /** The session opened last on a node, from act `m` on. */
  function WindowOf(trace: seq<Act>, m: nat, node: Node): Option<Window>
    requires m <= |trace|
  {
    if |trace| == m then
      var story := StoryOf(trace, node);
      if story.Some? then Some(Window(story.value.End(), [])) else None
    else
      Widened(WindowOf(trace[..|trace| - 1], m, node), trace[|trace| - 1], node)
  }

  function Widened(window: Option<Window>, act: Act, node: Node): Option<Window> {
    match act
    case Opening(n, _, link, at) => if n == node then Some(Window(Opened(link, at), [])) else window
    case Polled(n, _, poll) =>
      if n == node && window.Some? then Some(Window(window.value.start, window.value.polls + [poll])) else window
    case _ => window
  }

  /** A window ends where the story does. */
  lemma {:induction false} WindowEndsTheStory(trace: seq<Act>, m: nat, node: Node)
    requires m <= |trace|
    ensures WindowOf(trace, m, node).Some? <==> StoryOf(trace, node).Some?
    ensures StoryOf(trace, node).Some? ==> WindowOf(trace, m, node).value.End() == StoryOf(trace, node).value.End()
    decreases |trace|
  {
    if |trace| == m {
    } else {
      var n := |trace| - 1;
      WindowEndsTheStory(trace[..n], m, node);
      if trace[n].Polled? && trace[n].node == node && StoryOf(trace[..n], node).Some? {
        var story, window := StoryOf(trace[..n], node).value, WindowOf(trace[..n], m, node).value;
        assert (story.polls + [trace[n].poll])[..|story.polls|] == story.polls;
        assert (window.polls + [trace[n].poll])[..|window.polls|] == window.polls;
      }
    }
  }

  /** From act `m` on, which may still have heard something, nothing is heard, and all works. */
  ghost predicate IsSilence(trace: seq<Act>, m: nat, interval: nat, listenFirst: nat) {
    && m < |trace| && trace[m].Polled?
    && (forall k :: m <= k < |trace| && trace[k].Polled? ==>
          && trace[k].poll.fetched.Some? && trace[k].poll.written
          && (trace[k].poll.interval, trace[k].poll.listenFirst) == (interval, listenFirst))
    && (forall k :: m < k < |trace| && trace[k].Polled? ==> trace[k].poll.Quiet())
  }

  /** Polls in order and over by `clock`, of which only the first may have heard something, and all work. */
  ghost predicate IsQuiet(polls: seq<SessionRuns.Poll>, interval: nat, listenFirst: nat, clock: nat) {
    && SessionRuns.Ordered(0, polls) && (forall p <- polls :: p.now <= clock)
    && Working(polls, interval, listenFirst)
    && forall i :: 1 <= i < |polls| ==> polls[i].Quiet()
  }

  lemma {:induction false} OneQuietPollMore(
    polls: seq<SessionRuns.Poll>, p: SessionRuns.Poll, interval: nat, listenFirst: nat)
    requires IsQuiet(polls, interval, listenFirst, p.now) && (polls != [] ==> p.Quiet())
    requires p.fetched.Some? && p.written && (p.interval, p.listenFirst) == (interval, listenFirst)
    ensures IsQuiet(polls + [p], interval, listenFirst, p.now)
  {
    assert forall i :: 0 <= i < |polls| ==> polls[i] in polls;
  }

  lemma {:induction false} WindowIsQuiet(
    trace: seq<Act>, m: nat, n: nat, node: Node, interval: nat, listenFirst: nat, clock: nat)
    requires IsSilence(trace, m, interval, listenFirst) && m <= n <= |trace| && InOrder(trace[..n], clock)
    ensures var window := WindowOf(trace[..n], m, node);
      window.Some? ==>
        IsQuiet(window.value.polls, interval, listenFirst, clock) && (n == m ==> window.value.polls == [])
    decreases n
  {
    if n == m {
    } else {
      var act := trace[n - 1];
      assert trace[..n][..n - 1] == trace[..n - 1] && trace[..n][n - 1] == act;
      WindowIsQuiet(trace, m, n - 1, node, interval, listenFirst, When(act));
      var window := WindowOf(trace[..n - 1], m, node);
      if act.Polled? && act.node == node && window.Some? {
        OneQuietPollMore(window.value.polls, act.poll, interval, listenFirst);
      }
    }
  }

  /** By the visit at `k`, the session visited has asked since act `m`. */
  ghost predicate WasDue(trace: seq<Act>, m: nat, k: nat, interval: nat, listenFirst: nat) {
    && m <= k < |trace| && trace[k].Polled?
    && var window := WindowOf(trace[..k + 1], m, trace[k].node);
      && window.Some? && window.value.polls != [] && window.value.polls[0].fetched.Some?
      && HasAsked(window.value.start, window.value.polls, interval, listenFirst)
  }

  lemma {:induction false} WindowAsks(
    trace: seq<Act>, m: nat, n: nat, node: Node, interval: nat, listenFirst: nat, clock: nat)
    requires IsSilence(trace, m, interval, listenFirst) && m <= n <= |trace| && InOrder(trace[..n], clock)
    requires WindowOf(trace[..n], m, node).Some? && WindowOf(trace[..n], m, node).value.polls != []
    ensures var window := WindowOf(trace[..n], m, node).value;
      && window.polls[0].fetched.Some?
      && (1 <= SessionRuns.Requests(window.start, window.polls)
          <==> HasAsked(window.start, window.polls, interval, listenFirst))
  {
    WindowIsQuiet(trace, m, n, node, interval, listenFirst, clock);
    var window := WindowOf(trace[..n], m, node).value;
    assert forall i :: 0 <= i < |window.polls[1..]| ==> window.polls[1..][i] == window.polls[i + 1];
    QuietSessionAsks(window.start, window.polls, interval, listenFirst);
  }

  /** A window with a request in it has a poll in the trace that sends one. */
  lemma {:induction false} WhereItAsked(trace: seq<Act>, m: nat, node: Node) returns (k: nat)
    requires m <= |trace| && WindowOf(trace, m, node).Some?
    requires var window := WindowOf(trace, m, node).value; 1 <= SessionRuns.Requests(window.start, window.polls)
    ensures m <= k < |trace| && IsSent(trace, k)
    decreases |trace|
  {
    SomePollAsked(trace, m, node);
    var n := |trace| - 1;
    if IsSent(trace, n) {
      k := n;
    } else {
      SentLastIsLast(trace, m);
      k := WhereItAsked(trace[..n], m, node);
      IsSentInMore(trace[..n], [trace[n]], k);
      assert trace[..n] + [trace[n]] == trace;
    }
  }

  /** If the last act does not send it, the request was in the window before. */
  lemma {:induction false} SomePollAsked(trace: seq<Act>, m: nat, node: Node)
    requires m <= |trace| && WindowOf(trace, m, node).Some?
    requires var window := WindowOf(trace, m, node).value; 1 <= SessionRuns.Requests(window.start, window.polls)
    ensures m < |trace|
    ensures SentLast(trace, m) ||
            var before := WindowOf(trace[..|trace| - 1], m, node);
            before.Some? && 1 <= SessionRuns.Requests(before.value.start, before.value.polls)
  {
    var window := WindowOf(trace, m, node).value;
    assert window.polls != [];
    if m < |trace| && trace[|trace| - 1].Polled? && trace[|trace| - 1].node == node {
      var before := WindowOf(trace[..|trace| - 1], m, node).value;
      assert window.polls[..|window.polls| - 1] == before.polls;
    }
  }

  /** The last act is a poll that sends a request, by the window of its session. */
  ghost predicate SentLast(trace: seq<Act>, m: nat) {
    && m < |trace| && trace[|trace| - 1].Polled?
    && var window := WindowOf(trace[..|trace| - 1], m, trace[|trace| - 1].node);
      window.Some? && SessionRuns.Sends(window.value.End(), trace[|trace| - 1].poll)
  }

  lemma {:induction false} SentLastIsLast(trace: seq<Act>, m: nat)
    requires m < |trace|
    ensures SentLast(trace, m) <==> IsSent(trace, |trace| - 1)
  {
    if trace[|trace| - 1].Polled? {
      WindowEndsTheStory(trace[..|trace| - 1], m, trace[|trace| - 1].node);
    }
  }

  /** A poll that sends leaves a request in the window it is in. */
  lemma {:induction false} SentIsInTheWindow(trace: seq<Act>, m: nat)
    requires SentLast(trace, m)
    ensures var window := WindowOf(trace, m, trace[|trace| - 1].node);
      && window.Some? && window.value.polls != []
      && 1 <= SessionRuns.Requests(window.value.start, window.value.polls)
  {
    var act := trace[|trace| - 1];
    var before := WindowOf(trace[..|trace| - 1], m, act.node).value;
    assert (before.polls + [act.poll])[..|before.polls|] == before.polls;
  }

  /** A request went out from act `m` on. */
  ghost predicate AskedSince(trace: seq<Act>, m: nat) {
    exists k :: m < k < |trace| && trace[k].Asked?
  }

  ghost predicate DueSince(trace: seq<Act>, m: nat, interval: nat, listenFirst: nat) {
    exists k: nat :: WasDue(trace, m, k, interval, listenFirst)
  }

  lemma {:induction false} AskedWasDue(trace: seq<Act>, clock: nat, m: nat, k: nat, interval: nat, listenFirst: nat)
    requires Sound(trace, clock) && IsSilence(trace, m, interval, listenFirst)
    requires m < k < |trace| && trace[k].Asked?
    ensures WasDue(trace, m, k - 1, interval, listenFirst)
  {
    SentWasDue(trace, clock, m, k - 1, interval, listenFirst);
  }

  lemma {:induction false} SentWasDue(trace: seq<Act>, clock: nat, m: nat, k: nat, interval: nat, listenFirst: nat)
    requires InOrder(trace, clock) && IsSilence(trace, m, interval, listenFirst) && m <= k && IsSent(trace, k)
    ensures WasDue(trace, m, k, interval, listenFirst)
  {
    SentByThen(trace, k);
    SentIsRequested(trace[..k + 1], m);
    DueIfRequested(trace, clock, m, k, interval, listenFirst);
  }

  /** A window with a request in it. */
  ghost predicate HasRequest(window: Option<Window>) {
    window.Some? && window.value.polls != [] && 1 <= SessionRuns.Requests(window.value.start, window.value.polls)
  }

  lemma {:induction false} DueIfRequested(trace: seq<Act>, clock: nat, m: nat, k: nat, interval: nat, listenFirst: nat)
    requires InOrder(trace, clock) && IsSilence(trace, m, interval, listenFirst)
    requires m <= k < |trace| && trace[k].Polled?
    ensures WasDue(trace, m, k, interval, listenFirst) <==> HasRequest(WindowOf(trace[..k + 1], m, trace[k].node))
  {
    var window := WindowOf(trace[..k + 1], m, trace[k].node);
    if window.Some? && window.value.polls != [] {
      WindowAsks(trace, m, k + 1, trace[k].node, interval, listenFirst, clock);
    }
  }

  lemma {:induction false} SentByThen(trace: seq<Act>, k: nat)
    requires k < |trace|
    ensures IsSent(trace[..k + 1], k) <==> IsSent(trace, k)
  {
    assert trace[..k + 1][..k] == trace[..k];
  }

  lemma {:induction false} SentIsRequested(trace: seq<Act>, m: nat)
    requires m < |trace| && IsSent(trace, |trace| - 1)
    ensures HasRequest(WindowOf(trace, m, trace[|trace| - 1].node))
  {
    SentLastIsLast(trace, m);
    SentIsInTheWindow(trace, m);
  }

  lemma {:induction false} DueHasAsked(trace: seq<Act>, clock: nat, m: nat, k: nat, interval: nat, listenFirst: nat)
    requires Sound(trace, clock) && IsSilence(trace, m, interval, listenFirst)
    requires WasDue(trace, m, k, interval, listenFirst)
    ensures AskedSince(trace, m)
  {
    var most := trace[..k + 1];
    DueIfRequested(trace, clock, m, k, interval, listenFirst);
    var j := WhereItAsked(most, m, trace[k].node);
    assert most + trace[k + 1..] == trace;
    IsSentInMore(most, trace[k + 1..], j);
    assert IsSent(trace, j);
  }

  // ----- The silence of the watch -----

  /**
   The silence the watch counts begins with poll `m`: the last that heard something, or the first
   report if none has.
   */
  ghost predicate Begins(trace: seq<Act>, m: nat) {
    && m < |trace| && trace[m].Polled? && trace[m].poll.fetched.Some?
    && (forall k :: m < k < |trace| && trace[k].Polled? ==> trace[k].poll.Quiet())
    && (trace[m].poll.Quiet() ==> forall k :: 0 <= k < m && trace[k].Polled? ==> trace[k].poll.fetched.None?)
  }

  lemma {:induction false} NoReportNoWatch(trace: seq<Act>)
    requires forall k :: 0 <= k < |trace| && trace[k].Polled? ==> trace[k].poll.fetched.None?
    ensures WatchedOf(trace).None?
    decreases |trace|
  {
    if trace == [] {
    } else {
      NoReportNoWatch(trace[..|trace| - 1]);
    }
  }

  lemma {:induction false} WatchCountsFrom(trace: seq<Act>, m: nat)
    requires Begins(trace, m)
    ensures WatchedOf(trace).Some? && WatchedOf(trace).value.End().heardAt == When(trace[m])
    decreases |trace|
  {
    var n := |trace| - 1;
    if m == n {
      if trace[n].poll.Quiet() {
        NoReportNoWatch(trace[..n]);
      }
    } else {
      WatchCountsFrom(trace[..n], m);
    }
    AddedEvent(WatchedOf(trace[..n]), trace[n]);
  }

  /** What one more act does to where the watch counts from. */
  lemma {:induction false} AddedEvent(watched: Option<Watched>, act: Act)
    ensures var after := Heeded(watched, act);
      if act.Polled? && act.poll.fetched.Some? && (!act.poll.Quiet() || watched.None?) then
        after.Some? && after.value.End().heardAt == act.poll.now
      else
        && (after.Some? <==> watched.Some?)
        && (after.Some? ==> after.value.End().heardAt == watched.value.End().heardAt)
  {
    if act.Polled? && act.poll.fetched.Some? {
      var started := if watched.Some? then watched.value else Watched(act.poll.now, []);
      assert (started.events + [Wedge.Spoke(act.poll.now)])[..|started.events|] == started.events;
    } else if act.Checked? && watched.Some? {
      var e := Wedge.Passed(act.at, act.running);
      assert (watched.value.events + [e])[..|watched.value.events|] == watched.value.events;
    }
  }

  /** Every watch counts from such a poll. */
  lemma {:induction false} SilenceBegins(trace: seq<Act>) returns (m: nat)
    requires WatchedOf(trace).Some?
    ensures Begins(trace, m)
    decreases |trace|
  {
    var n := |trace| - 1;
    if WatchedOf(trace[..n]).Some? && !(trace[n].Polled? && !trace[n].poll.Quiet()) {
      m := SilenceBegins(trace[..n]);
    } else {
      m := n;
      if WatchedOf(trace[..n]).None? {
        NoWatchNoReport(trace[..n]);
      }
    }
  }

  lemma {:induction false} NoWatchNoReport(trace: seq<Act>)
    requires WatchedOf(trace).None?
    ensures forall k :: 0 <= k < |trace| && trace[k].Polled? ==> trace[k].poll.fetched.None?
    decreases |trace|
  {
    if trace == [] {
    } else {
      NoWatchNoReport(trace[..|trace| - 1]);
    }
  }

  /**
   Exactly which silences of the watch are asked about, over every run of the reader, while
   fetches and writes succeed, under any one interval and listening time: a request has gone out
   since the poll it counts from if and only if some session visited since was due at a visit,
   as it was when the silence began or as it was opened later.
   */
  lemma {:induction false} SilenceIsAskedAbout(
    states: seq<ReaderState>, polls: seq<Poll>, reports: seq<seq<Headset>>, i: nat,
    m: nat, interval: nat, listenFirst: nat)
    requires IsRun(states, polls, reports) && Timely(polls) && i <= |polls|
    requires Begins(states[i].trace, m) && IsSilence(states[i].trace, m, interval, listenFirst)
    ensures states[i].wedge.Some? && states[i].wedge.value.heardAt == When(states[i].trace[m])
    ensures AskedSince(states[i].trace, m) <==> DueSince(states[i].trace, m, interval, listenFirst)
  {
    var trace, clock := states[i].trace, Clock(polls, i);
    WatchIsTold(states, polls, reports, i);
    WatchCountsFrom(trace, m);
    TraceIsSound(states, polls, reports, i);
    if AskedSince(trace, m) {
      var k :| m < k < |trace| && trace[k].Asked?;
      AskedWasDue(trace, clock, m, k, interval, listenFirst);
    }
    if DueSince(trace, m, interval, listenFirst) {
      var k: nat :| WasDue(trace, m, k, interval, listenFirst);
      DueHasAsked(trace, clock, m, k, interval, listenFirst);
    }
  }

  // ----- Ten minutes -----

  lemma {:induction false} AskedInTime(s: State, polls: seq<SessionRuns.Poll>, clock: nat)
    requires s.askedAt.Some? ==> s.askedAt.value <= clock
    requires forall p <- polls :: p.now <= clock
    ensures var r := SessionRuns.Run(s, polls); r.askedAt.Some? ==> r.askedAt.value <= clock
    decreases |polls|
  {
    if polls == [] {
    } else {
      var n := |polls| - 1;
      AskedInTime(s, polls[..n], clock);
      if polls[n].fetched.Some? {
        HearKeepsAsks(SessionRuns.Run(s, polls[..n]), polls[n].fetched.value, polls[n].readings);
      }
    }
  }

  lemma {:induction false} StoryIsInTime(trace: seq<Act>, node: Node, clock: nat)
    requires InOrder(trace, clock) && StoryOf(trace, node).Some?
    ensures forall p <- StoryOf(trace, node).value.polls :: p.now <= clock
    decreases |trace|
  {
    var n := |trace| - 1;
    if StoryOf(trace[..n], node).Some? {
      StoryIsInTime(trace[..n], node, clock);
    }
  }

  /** What a window starts from has not asked since. */
  lemma {:induction false} WindowStartsInTime(trace: seq<Act>, m: nat, node: Node)
    requires m < |trace| && InOrder(trace, When(trace[|trace| - 1])) && WindowOf(trace, m, node).Some?
    ensures var start := WindowOf(trace, m, node).value.start;
      start.askedAt.Some? ==> start.askedAt.value <= When(trace[m])
    decreases |trace|
  {
    var n := |trace| - 1;
    if n == m {
      var story := StoryOf(trace[..n], node);
      if story.Some? {
        assert InOrder(trace[..n], When(trace[m]));
        StoryIsInTime(trace[..n], node, When(trace[m]));
        AskedInTime(story.value.Start(), story.value.polls, When(trace[m]));
      }
    } else if WindowOf(trace[..n], m, node).Some? {
      assert InOrder(trace[..n], When(trace[n - 1]));
      WindowStartsInTime(trace[..n], m, node);
    }
  }

  /** The session visited at `k`, as the first poll since act `m` left it. */
  function HeardAt(trace: seq<Act>, m: nat, k: nat): State
    requires m <= k < |trace| && trace[k].Polled?
    requires var window := WindowOf(trace[..k + 1], m, trace[k].node); window.Some? && window.value.polls != []
  {
    var window := WindowOf(trace[..k + 1], m, trace[k].node).value;
    SessionRuns.Listened(window.start, window.polls[0])
  }

  /** The poll at `k` is one of a session that was open by the time of act `m`. */
  ghost predicate WasThere(trace: seq<Act>, m: nat, k: nat) {
    && m <= k < |trace| && trace[k].Polled?
    && var window := WindowOf(trace[..k + 1], m, trace[k].node);
      window.Some? && window.value.polls != [] && window.value.start.openedAt <= When(trace[m])
  }

  /**
   So with an interval and a listening time of at most ten minutes, a session that was there when
   the silence began has asked by any visit ten minutes later, unless, and only unless, its
   headset was reported gone to it after it had asked - or is one it still has to give up on.
   */
  lemma {:induction false} TenMinutesAreAskedAbout(
    trace: seq<Act>, clock: nat, m: nat, k: nat, interval: nat, listenFirst: nat)
    requires InOrder(trace, clock) && IsSilence(trace, m, interval, listenFirst) && WasThere(trace, m, k)
    requires interval <= ASK_IDLE_RETRY && listenFirst <= ASK_IDLE_RETRY
    requires When(trace[m]) + ASK_IDLE_RETRY <= When(trace[k])
    ensures var heard := HeardAt(trace, m, k);
      !heard.GivesUp() ==>
        (WasDue(trace, m, k, interval, listenFirst) <==> !(heard.link == Down && heard.askedAt.Some?))
  {
    var window := WindowOf(trace[..k + 1], m, trace[k].node).value;
    WindowAsks(trace, m, k + 1, trace[k].node, interval, listenFirst, When(trace[k]));
    assert InOrder(trace[..k + 1], When(trace[..k + 1][k]));
    WindowStartsInTime(trace[..k + 1], m, trace[k].node);
    HearKeepsAsks(window.start, window.polls[0].fetched.value, window.polls[0].readings);
    LastPollIsTheAct(trace, m, k);
  }

  lemma {:induction false} LastPollIsTheAct(trace: seq<Act>, m: nat, k: nat)
    requires m <= k < |trace| && trace[k].Polled? && WindowOf(trace[..k + 1], m, trace[k].node).Some?
    ensures SessionRuns.Last(0, WindowOf(trace[..k + 1], m, trace[k].node).value.polls) == When(trace[k])
  {
    assert trace[..k + 1][..k] == trace[..k] && trace[..k + 1][k] == trace[k];
  }

  /** A session opened since has asked exactly if it inherited a linked headset, or has listened. */
  lemma {:induction false} OpenedSinceIsAskedAbout(
    trace: seq<Act>, clock: nat, m: nat, k: nat, interval: nat, listenFirst: nat, link: LinkState, at: nat)
    requires InOrder(trace, clock) && IsSilence(trace, m, interval, listenFirst)
    requires m < k < |trace| && trace[k].Polled?
    requires var window := WindowOf(trace[..k + 1], m, trace[k].node);
      window.Some? && window.value.start == Opened(link, at) && at <= When(trace[k]) && window.value.polls[0].Quiet()
    ensures WasDue(trace, m, k, interval, listenFirst) <==> link == Up || at + listenFirst <= When(trace[k])
  {
    WindowAsks(trace, m, k + 1, trace[k].node, interval, listenFirst, When(trace[k]));
    LastPollIsTheAct(trace, m, k);
  }

  // ----- A dongle replugged in the middle of a silence -----

  const REPLUG_INTERVAL: nat := 60 * SECOND

  /** All works, playback is running, and nothing is said. */
  const MUTE: Io := Io(true, Report([]), Taken, Some(true))

  function PassAt(now: nat): Pass {
    Pass(now, REPLUG_INTERVAL, LISTEN_FIRST, false)
  }

  /** A dongle that is pulled after a second, and back on another node after ten minutes. */
  function Replug(): seq<Poll> {
    [Poll([Dongle(0, 1)], PassAt(0), [MUTE]),
     Poll([], PassAt(SECOND), []),
     Poll([Dongle(1, 1)], PassAt(600 * SECOND), [MUTE])]
  }

  /** A visit to a dongle that is not open yet, whose headset nothing is known of, and that says nothing. */
  lemma {:induction false} MuteVisit(r: ReaderState, dongle: Dongle, now: nat)
    requires dongle.node !in r.sessions && r.Inherited(dongle.productId) == Unknown
    ensures var after := r.Visit(dongle, PassAt(now), MUTE).0;
      var watch := if r.wedge.Some? then r.wedge.value else Wedge.NewWatch(now);
      && after.sessions == r.sessions[dongle.node := Held(dongle.productId, Opened(Unknown, now))]
      && after.lastLink == r.lastLink && after.log == r.log && after.sources == r.sources
      && after.wedge == Some(watch.Check(now, Some(true)))
      && after.trace == r.trace + [Opening(dongle.node, dongle.productId, Unknown, now)]
                        + [Polled(dongle.node, dongle.productId, r.PollOf(PassAt(now), MUTE))]
                        + [Checked(now, Some(true))]
  {
    assert Messages([]) == [];
    var open := r.Open(dongle, now);
    var heard := open.Hear(dongle.node, open.PollOf(PassAt(now), MUTE));
    assert heard.sessions[dongle.node] == Held(dongle.productId, Opened(Unknown, now));
    assert heard.AskIfDue(dongle.node, PassAt(now), Taken) == heard;
  }

  /** One dongle is visited. */
  lemma {:induction false} OneVisit(r: ReaderState, dongle: Dongle, pass: Pass, io: Io)
    ensures r.VisitAll([dongle], pass, [io]) == (r.Visit(dongle, pass, io).0, [r.Visit(dongle, pass, io).1])
  {
    OneMoreVisit(r, [dongle], pass, [io], 0);
    assert [dongle][..0] == [] && [io][..0] == [] && [dongle][..1] == [dongle] && [io][..1] == [io];
    assert r.VisitAll([], pass, []) == (r, []);
    assert [] + [r.Visit(dongle, pass, io).1] == [r.Visit(dongle, pass, io).1];
  }

  /**
   A run in which every open and fetch succeeds and nothing is ever asked, because no session is
   there for long enough; and yet, after ten minutes, the dongle is called wedged.
   */
  lemma {:induction false} ReplugIsNotAskedAbout() returns (states: seq<ReaderState>, reports: seq<seq<Headset>>)
    ensures IsRun(states, Replug(), reports) && Timely(Replug())
    ensures forall act <- states[3].trace :: !act.Asked?
    ensures states[3].wedge.Some? && states[3].wedge.value.warnedAt == Some(Wedge.WEDGE_SILENCE)
  {
    states, reports := PluggedAndPulled();
    var pulled := states[2];
    var (last, headset) := pulled.Visit(Dongle(1, 1), PassAt(600 * SECOND), MUTE);
    MuteVisit(pulled, Dongle(1, 1), 600 * SECOND);
    OnePass(pulled, Dongle(1, 1), PassAt(600 * SECOND), MUTE);
    OneMorePoll(states, Replug()[..2], reports, Replug()[2], last, [headset]);
    states, reports := states + [last], reports + [[headset]];
    assert Replug()[..2] + [Replug()[2]] == Replug();
  }

  lemma {:induction false} PluggedAndPulled() returns (states: seq<ReaderState>, reports: seq<seq<Headset>>)
    ensures IsRun(states, Replug()[..2], reports)
    ensures var pulled := states[2];
      && pulled.sessions == map[] && pulled.Inherited(1) == Unknown && pulled.wedge == Some(Wedge.NewWatch(0))
      && forall act <- pulled.trace :: !act.Asked?
  {
    states, reports := Plugged();
    var pulled := states[1].(sessions := map[], lastLink := map[1 := Unknown]);
    Pulled(states[1], pulled);
    assert pulled.VisitAll([], PassAt(SECOND), []) == (pulled, []);
    OneMorePoll(states, Replug()[..1], reports, Replug()[1], pulled, []);
    states, reports := states + [pulled], reports + [[]];
    assert Replug()[..1] + [Replug()[1]] == Replug()[..2];
  }

  lemma {:induction false} Plugged() returns (states: seq<ReaderState>, reports: seq<seq<Headset>>)
    ensures IsRun(states, Replug()[..1], reports)
    ensures var plugged := states[1];
      && plugged.sessions == map[0 := Held(1, Opened(Unknown, 0))] && plugged.lastLink == map[]
      && plugged.wedge == Some(Wedge.NewWatch(0)) && forall act <- plugged.trace :: !act.Asked?
  {
    var (first, headset) := INITIAL.Visit(Dongle(0, 1), PassAt(0), MUTE);
    MuteVisit(INITIAL, Dongle(0, 1), 0);
    OnePass(INITIAL, Dongle(0, 1), PassAt(0), MUTE);
    states, reports := [INITIAL, first], [[headset]];
    assert Replug()[..1] == [Replug()[0]];
  }

  /** A pass over one dongle that closes nothing. */
  lemma {:induction false} OnePass(r: ReaderState, dongle: Dongle, pass: Pass, io: Io)
    requires r.sessions == map[]
    ensures var (after, headset) := r.Visit(dongle, pass, io); Reconciles(r, [dongle], pass, [io], after, [headset])
  {
    NothingClosed(r, Nodes([dongle]));
    OneVisit(r, dongle, pass, io);
  }

  /** Closing the only session. */
  lemma {:induction false} Pulled(before: ReaderState, after: ReaderState)
    requires before.sessions == map[0 := Held(1, Opened(Unknown, 0))] && before.lastLink == map[]
    requires after == before.(sessions := map[], lastLink := map[1 := Unknown])
    ensures Retains(before, Nodes([]), after)
  {
    assert Nodes([]) == {};
    assert Closes(before, {}, 0, 1);
    forall p | !ClosesNone(before, {}, p)
      ensures p == 1
    {
    }
    forall p | ClosesNone(before, {}, p)
      ensures p != 1
    {
    }
  }
}
