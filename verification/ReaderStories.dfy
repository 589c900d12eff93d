/**
 What the trace of a reader tells of its sessions and its watch, over whole runs: each session is
 where its own polls have led it, and the watch where the passes have led it. So the request
 budget, and the sparing warnings, are kept by the reader.
 */
module ReaderStories {
  import opened Prelude
  import opened Frame
  import opened Headsets
  import opened Sessions
  import SessionRuns
  import SessionInvariants
  import Wedge
  import opened Readers
  import opened ReaderRuns

  // ----- Sessions -----

  /** What a session was opened for and on, and the polls it has had since. */
  datatype Story = Story(productId: nat, link: LinkState, at: nat, polls: seq<SessionRuns.Poll>)
  {
    function Start(): State {
      Opened(link, at)
    }

    function End(): State {
      SessionRuns.Run(Start(), polls)
    }
  }

  /** The story of the session that was opened last on a node. */
  function StoryOf(trace: seq<Act>, node: Node): Option<Story> {
    if trace == [] then None else Told(StoryOf(trace[..|trace| - 1], node), trace[|trace| - 1], node)
  }

  /** What an act adds to a story. */
  function Told(story: Option<Story>, act: Act, node: Node): Option<Story> {
    match act
    case Opening(n, productId, link, at) => if n == node then Some(Story(productId, link, at, [])) else story
    case Polled(n, _, poll) =>
      if n == node && story.Some? then Some(story.value.(polls := story.value.polls + [poll])) else story
    case _ => story
  }

  lemma StoryAfter(trace: seq<Act>, act: Act, node: Node)
    ensures StoryOf(trace + [act], node) == Told(StoryOf(trace, node), act, node)
  {
    assert (trace + [act])[..|trace|] == trace;
  }

  /** The session is where its story leads, which is in order and over by `clock`. */
  ghost predicate IsTold(r: ReaderState, node: Node, clock: nat)
    requires node in r.sessions
  {
    var story := StoryOf(r.trace, node);
    && story.Some?
    && r.sessions[node] == Held(story.value.productId, story.value.End())
    && SessionRuns.Ordered(story.value.at, story.value.polls)
    && SessionRuns.Last(story.value.at, story.value.polls) <= clock
  }

  ghost predicate AllTold(r: ReaderState, clock: nat) {
    forall node <- r.sessions :: IsTold(r, node, clock)
  }

  lemma OpenIsTold(r: ReaderState, dongle: Dongle, now: nat, clock: nat)
    requires AllTold(r, clock) && clock <= now
    ensures AllTold(r.Open(dongle, now), now)
  {
    var open := r.Open(dongle, now);
    forall node <- open.sessions
      ensures IsTold(open, node, now)
    {
      assert node in r.sessions ==> IsTold(r, node, clock);
      if dongle.node !in r.sessions {
        StoryAfter(r.trace, Opening(dongle.node, dongle.productId, r.Inherited(dongle.productId), now), node);
      }
    }
  }

  /** A visit adds one poll to the story of its session, and nothing to any other. */
  lemma ListeningTells(r: ReaderState, dongle: Dongle, pass: Pass, io: Io, node: Node)
    requires dongle.node in r.sessions
    ensures var poll := Polled(dongle.node, r.sessions[dongle.node].productId, r.PollOf(pass, io));
      StoryOf(r.ListenTo(dongle, pass, io).0.trace, node) == Told(StoryOf(r.trace, node), poll, node)
  {
    var poll := r.PollOf(pass, io);
    StoryAfter(r.trace, Polled(dongle.node, r.sessions[dongle.node].productId, poll), node);
    if io.fetch.Report? {
      var heard := r.Hear(dongle.node, poll);
      AskingTells(heard, dongle.node, pass, io.write, node);
      CheckingTells(heard.AskIfDue(dongle.node, pass, io.write), dongle.node, pass.now, io.playback, node);
    }
  }

  lemma AskingTells(r: ReaderState, at: Node, pass: Pass, write: Write, node: Node)
    requires at in r.sessions
    ensures StoryOf(r.AskIfDue(at, pass, write).trace, node) == StoryOf(r.trace, node)
  {
    StoryAfter(r.trace, GaveUp(r.sessions[at].productId, pass.now), node);
    StoryAfter(r.trace, Asked(at, r.sessions[at].productId, pass.now), node);
    assert r.trace + [] == r.trace;
  }

  lemma CheckingTells(r: ReaderState, at: Node, now: nat, playback: Option<bool>, node: Node)
    requires at in r.sessions
    ensures StoryOf(r.CheckWedge(at, now, playback).trace, node) == StoryOf(r.trace, node)
  {
    StoryAfter(r.trace, Checked(now, playback), node);
  }

  lemma ListeningIsTold(r: ReaderState, dongle: Dongle, pass: Pass, io: Io)
    requires dongle.node in r.sessions && AllTold(r, pass.now)
    ensures AllTold(r.ListenTo(dongle, pass, io).0, pass.now)
  {
    var after := r.ListenTo(dongle, pass, io).0;
    forall node <- after.sessions
      ensures IsTold(after, node, pass.now)
    {
      ListeningTells(r, dongle, pass, io, node);
      if node == dongle.node {
        assert IsTold(r, node, pass.now);
        VisitPollsTheSession(r, dongle, pass, io);
        OnePollMore(StoryOf(r.trace, node).value, r.PollOf(pass, io));
      } else {
        ListeningLeavesTheOthers(r, dongle, pass, io, node);
        assert IsTold(r, node, pass.now);
      }
    }
  }

  lemma OnePollMore(story: Story, poll: SessionRuns.Poll)
    requires SessionRuns.Ordered(story.at, story.polls) && SessionRuns.Last(story.at, story.polls) <= poll.now
    ensures var more := story.(polls := story.polls + [poll]);
      && more.End() == SessionRuns.Step(story.End(), poll)
      && SessionRuns.Ordered(more.at, more.polls) && SessionRuns.Last(more.at, more.polls) == poll.now
  {
    assert (story.polls + [poll])[..|story.polls|] == story.polls;
  }

  lemma VisitIsTold(r: ReaderState, dongle: Dongle, pass: Pass, io: Io, clock: nat)
    requires AllTold(r, clock) && clock <= pass.now
    ensures AllTold(r.Visit(dongle, pass, io).0, pass.now)
  {
    if dongle.node in r.sessions || io.opens {
      var open := r.Open(dongle, pass.now);
      OpenIsTold(r, dongle, pass.now, clock);
      ListeningIsTold(open, dongle, pass, io);
      OpeningFirst(r, dongle, pass, io);
      ClosingIsTold(open.ListenTo(dongle, pass, io).0, dongle.node, pass.now);
    } else {
      LaterIsTold(r, clock, pass.now);
    }
  }

  lemma ClosingIsTold(r: ReaderState, node: Node, clock: nat)
    requires AllTold(r, clock)
    ensures AllTold(r.Close(node), clock)
  {
    var closed := r.Close(node);
    forall n <- closed.sessions
      ensures IsTold(closed, n, clock)
    {
      assert IsTold(r, n, clock);
    }
  }

  lemma LaterIsTold(r: ReaderState, clock: nat, later: nat)
    requires AllTold(r, clock) && clock <= later
    ensures AllTold(r, later)
  {
    forall n <- r.sessions
      ensures IsTold(r, n, later)
    {
      assert IsTold(r, n, clock);
    }
  }

  lemma RetainingIsTold(before: ReaderState, listed: set<Node>, after: ReaderState, clock: nat)
    requires AllTold(before, clock) && Retains(before, listed, after)
    ensures AllTold(after, clock)
  {
    forall n <- after.sessions
      ensures IsTold(after, n, clock)
    {
      assert IsTold(before, n, clock);
    }
  }

  lemma {:induction false} VisitAllIsTold(r: ReaderState, dongles: seq<Dongle>, pass: Pass, ios: seq<Io>, clock: nat)
    requires AllTold(r, clock) && clock <= pass.now && |ios| == |dongles|
    ensures AllTold(r.VisitAll(dongles, pass, ios).0, pass.now)
    decreases |dongles|
  {
    if dongles == [] {
      LaterIsTold(r, clock, pass.now);
    } else {
      var n := |dongles| - 1;
      VisitAllIsTold(r, dongles[..n], pass, ios[..n], clock);
      VisitIsTold(r.VisitAll(dongles[..n], pass, ios[..n]).0, dongles[n], pass, ios[n], pass.now);
    }
  }

  /**
   Over every run of the reader, each open session is exactly where the polls it has had since
   it was opened have led it, on what it inherited then.
   */
  lemma {:induction false} SessionsAreTold(
    states: seq<ReaderState>, polls: seq<Poll>, reports: seq<seq<Headset>>, i: nat)
    requires IsRun(states, polls, reports) && Timely(polls) && i <= |polls|
    ensures AllTold(states[i], Clock(polls, i))
    decreases i
  {
    if i == 0 {
    } else {
      var p := polls[i - 1];
      SessionsAreTold(states, polls, reports, i - 1);
      var retained := Retained(states[i - 1], p, states[i], reports[i - 1]);
      RetainingIsTold(states[i - 1], Nodes(p.dongles), retained, Clock(polls, i - 1));
      VisitAllIsTold(retained, p.dongles, p.pass, p.ios, Clock(polls, i - 1));
    }
  }

  /**
   The request budget of a session, by its own polls: over all of them three requests per silence,
   and since something was last heard at most three - each time with one more per ten minutes.
   */
  ghost predicate KeepsBudget(story: Story, asks: nat, clock: nat)
    requires SessionRuns.Ordered(story.at, story.polls) && SessionRuns.Last(story.at, story.polls) <= clock
  {
    var polls := story.polls;
    && asks == SessionRuns.Requests(story.Start(), polls)
    && SessionRuns.WithinBudget(asks, 1 + SessionRuns.Heard(polls), clock - story.at)
    && (SessionRuns.AllQuiet(polls) ==> SessionRuns.WithinBudget(asks, 1, clock - story.at))
    && forall k: nat :: k < |polls| && !polls[k].Quiet() && SessionRuns.AllQuiet(polls[k + 1..]) ==>
         SessionRuns.WithinBudget(SentFrom(story, k), 1, clock - polls[k].now)
  }

  /** How many requests went out from poll `k` on. */
  ghost function SentFrom(story: Story, k: nat): nat
    requires k <= |story.polls|
  {
    SessionRuns.Requests(SessionRuns.Run(story.Start(), story.polls[..k]), story.polls[k..])
  }

  /**
   Over every run of the reader, each open session has kept its request budget, however sessions
   around it came and went: what is counted are the polls the trace has of it.
   */
  lemma {:induction false} SessionsKeepTheBudget(
    states: seq<ReaderState>, polls: seq<Poll>, reports: seq<seq<Headset>>, i: nat, node: Node)
    requires IsRun(states, polls, reports) && Timely(polls) && i <= |polls| && node in states[i].sessions
    ensures IsTold(states[i], node, Clock(polls, i))
    ensures KeepsBudget(StoryOf(states[i].trace, node).value, states[i].sessions[node].state.asks, Clock(polls, i))
  {
    SessionsAreTold(states, polls, reports, i);
    assert IsTold(states[i], node, Clock(polls, i));
    StoriesKeepTheBudget(StoryOf(states[i].trace, node).value, Clock(polls, i));
  }

  lemma StoriesKeepTheBudget(story: Story, clock: nat)
    requires SessionRuns.Ordered(story.at, story.polls) && SessionRuns.Last(story.at, story.polls) <= clock
    ensures KeepsBudget(story, story.End().asks, clock)
  {
    WholeStoryKeepsBudget(story, clock);
    forall k: nat | k < |story.polls| && !story.polls[k].Quiet() && SessionRuns.AllQuiet(story.polls[k + 1..])
      ensures SessionRuns.WithinBudget(SentFrom(story, k), 1, clock - story.polls[k].now)
    {
      WindowKeepsBudget(story, k, clock);
    }
  }

  lemma WholeStoryKeepsBudget(story: Story, clock: nat)
    requires SessionRuns.Ordered(story.at, story.polls) && SessionRuns.Last(story.at, story.polls) <= clock
    ensures var asks, polls := story.End().asks, story.polls;
      && asks == SessionRuns.Requests(story.Start(), polls)
      && SessionRuns.WithinBudget(asks, 1 + SessionRuns.Heard(polls), clock - story.at)
      && (SessionRuns.AllQuiet(polls) ==> SessionRuns.WithinBudget(asks, 1, clock - story.at))
  {
    var elapsed := SessionRuns.Last(story.at, story.polls) - story.at;
    SessionInvariants.AsksAreRequests(story.link, story.at, story.polls);
    SessionRuns.SessionBudget(story.link, story.at, story.polls);
    LongerBudget(story.End().asks, 1 + SessionRuns.Heard(story.polls), elapsed, clock - story.at);
    if SessionRuns.AllQuiet(story.polls) {
      SessionRuns.RequestBudgetFromOpening(story.link, story.at, story.polls);
      LongerBudget(story.End().asks, 1, elapsed, clock - story.at);
    }
  }

  lemma WindowKeepsBudget(story: Story, k: nat, clock: nat)
    requires SessionRuns.Ordered(story.at, story.polls) && SessionRuns.Last(story.at, story.polls) <= clock
    requires k < |story.polls| && !story.polls[k].Quiet() && SessionRuns.AllQuiet(story.polls[k + 1..])
    ensures SessionRuns.WithinBudget(SentFrom(story, k), 1, clock - story.polls[k].now)
  {
    SessionRuns.OrderedSplits(story.at, story.polls, k);
    assert story.polls[k..][1..] == story.polls[k + 1..];
    SessionRuns.RequestBudget(SessionRuns.Run(story.Start(), story.polls[..k]), story.polls[k..]);
    var elapsed := SessionRuns.Last(story.at, story.polls) - story.polls[k].now;
    LongerBudget(SentFrom(story, k), 1, elapsed, clock - story.polls[k].now);
  }

  lemma LongerBudget(n: nat, silences: nat, elapsed: nat, whole: nat)
    requires SessionRuns.WithinBudget(n, silences, elapsed) && elapsed <= whole
    ensures SessionRuns.WithinBudget(n, silences, whole)
  {
    SessionRuns.SlowRequestsAdd(elapsed, 0, whole);
  }

  // ----- The polls are the passes -----

  /** Act `act` is pass `i` over its dongle `d`. */
  ghost predicate IsPass(polls: seq<Poll>, i: nat, d: nat, act: Act)
    requires act.Polled?
  {
    && i < |polls| && d < |polls[i].dongles| == |polls[i].ios|
    && act.node == polls[i].dongles[d].node
    && IsPollOf(act.poll, polls[i].pass, polls[i].ios[d])
  }

  ghost predicate IsPollOf(poll: SessionRuns.Poll, pass: Pass, io: Io) {
    && (poll.now, poll.interval, poll.listenFirst) == (pass.now, pass.interval, pass.listenFirst)
    && poll.fetched == (if io.fetch.Report? then Some(Messages(io.fetch.frame)) else None)
    && poll.written == io.write.Taken?
  }

  lemma ListeningPolls(r: ReaderState, dongle: Dongle, pass: Pass, io: Io)
    ensures forall act <- r.ListenTo(dongle, pass, io).0.trace ::
      act in r.trace || (act.Polled? ==> act.node == dongle.node && IsPollOf(act.poll, pass, io))
  {
    if dongle.node in r.sessions || io.opens {
      var open := r.Open(dongle, pass.now);
      OpeningFirst(r, dongle, pass, io);
      if io.fetch.Report? {
        var heard := open.Hear(dongle.node, open.PollOf(pass, io));
        assert forall act <- heard.AskIfDue(dongle.node, pass, io.write).trace :: act in heard.trace || !act.Polled?;
      }
    }
  }

  /** The poll is the visit to a dongle listed at that node. */
  ghost predicate IsVisit(act: Act, dongles: seq<Dongle>, pass: Pass, ios: seq<Io>)
    requires act.Polled? && |ios| == |dongles|
  {
    exists d: nat :: d < |dongles| && act.node == dongles[d].node && IsPollOf(act.poll, pass, ios[d])
  }

  lemma {:induction false} VisitInMore(act: Act, dongles: seq<Dongle>, pass: Pass, ios: seq<Io>, n: nat)
    requires act.Polled? && |ios| == |dongles| && n <= |dongles| && IsVisit(act, dongles[..n], pass, ios[..n])
    ensures IsVisit(act, dongles, pass, ios)
  {
    var d: nat :| d < n && act.node == dongles[..n][d].node && IsPollOf(act.poll, pass, ios[..n][d]);
    assert act.node == dongles[d].node && IsPollOf(act.poll, pass, ios[d]);
  }

  lemma {:induction false} VisitAllPolls(r: ReaderState, dongles: seq<Dongle>, pass: Pass, ios: seq<Io>)
    requires |ios| == |dongles|
    ensures forall act <- r.VisitAll(dongles, pass, ios).0.trace ::
      act in r.trace || (act.Polled? ==> IsVisit(act, dongles, pass, ios))
    decreases |dongles|
  {
    if dongles == [] {
    } else {
      var n := |dongles| - 1;
      VisitAllPolls(r, dongles[..n], pass, ios[..n]);
      var before := r.VisitAll(dongles[..n], pass, ios[..n]).0;
      ListeningPolls(before, dongles[n], pass, ios[n]);
      forall act <- before.trace | act !in r.trace && act.Polled?
        ensures IsVisit(act, dongles, pass, ios)
      {
        VisitInMore(act, dongles, pass, ios, n);
      }
    }
  }

  /** Over every run, every poll in the trace is a pass over a dongle listed at that node. */
  lemma {:induction false} PollsArePasses(
    states: seq<ReaderState>, polls: seq<Poll>, reports: seq<seq<Headset>>, i: nat)
    requires IsRun(states, polls, reports) && i <= |polls|
    ensures forall act <- states[i].trace :: act.Polled? ==> exists j: nat, d: nat :: j < i && IsPass(polls, j, d, act)
    decreases i
  {
    if i == 0 {
    } else {
      var p := polls[i - 1];
      PollsArePasses(states, polls, reports, i - 1);
      var retained := Retained(states[i - 1], p, states[i], reports[i - 1]);
      VisitAllPolls(retained, p.dongles, p.pass, p.ios);
      forall act <- states[i].trace | act.Polled? && act !in states[i - 1].trace
        ensures exists j: nat, d: nat :: j < i && IsPass(polls, j, d, act)
      {
        var d: nat :| d < |p.dongles| && act.node == p.dongles[d].node && IsPollOf(act.poll, p.pass, p.ios[d]);
        assert IsPass(polls, i - 1, d, act);
      }
    }
  }

  // ----- The watch -----

  /** What a watch has been told since it was started. */
  datatype Watched = Watched(start: nat, events: seq<Wedge.Event>)
  {
    function With(e: Wedge.Event): Watched {
      this.(events := events + [e])
    }

    function End(): Wedge.Watch {
      Wedge.Run(Wedge.NewWatch(start), events)
    }

    /** In order, and over by `clock`. */
    ghost predicate IsOver(clock: nat) {
      && start <= clock && Wedge.Ordered(start, events)
      && forall i :: 0 <= i < |events| ==> events[i].at <= clock
    }
  }

  /** The watch starts on the first report, hears of each that says something, and is told of checks. */
  function WatchedOf(trace: seq<Act>): Option<Watched> {
    if trace == [] then None else Heeded(WatchedOf(trace[..|trace| - 1]), trace[|trace| - 1])
  }

  function Heeded(watched: Option<Watched>, act: Act): Option<Watched> {
    match act
    case Polled(_, _, poll) =>
      if poll.fetched.None? then
        watched
      else
        var started := if watched.Some? then watched.value else Watched(poll.now, []);
        Some(if poll.Quiet() then started else started.With(Wedge.Spoke(poll.now)))
    case Checked(at, running) => if watched.Some? then Some(watched.value.With(Wedge.Passed(at, running))) else None
    case _ => watched
  }

  lemma WatchedAfter(trace: seq<Act>, act: Act)
    ensures WatchedOf(trace + [act]) == Heeded(WatchedOf(trace), act)
  {
    assert (trace + [act])[..|trace|] == trace;
  }

  /** The watch is where all it was told has led it. */
  ghost predicate Watches(r: ReaderState, clock: nat) {
    var watched := WatchedOf(r.trace);
    && r.wedge == (if watched.Some? then Some(watched.value.End()) else None)
    && (watched.Some? ==> watched.value.IsOver(clock))
  }

  lemma OneMoreEvent(watched: Watched, e: Wedge.Event)
    requires watched.IsOver(e.at)
    ensures watched.With(e).IsOver(e.at) && watched.With(e).End() == Wedge.Step(watched.End(), e)
  {
    assert (watched.events + [e])[..|watched.events|] == watched.events;
  }

  lemma OpenKeepsWatch(r: ReaderState, dongle: Dongle, now: nat, clock: nat)
    requires Watches(r, clock) && clock <= now
    ensures Watches(r.Open(dongle, now), now)
  {
    WatchedAfter(r.trace, Opening(dongle.node, dongle.productId, r.Inherited(dongle.productId), now));
  }

  lemma HearKeepsWatch(r: ReaderState, node: Node, poll: SessionRuns.Poll)
    requires node in r.sessions && poll.fetched.Some? && Watches(r, poll.now)
    ensures Watches(r.Hear(node, poll), poll.now)
  {
    var watched := WatchedOf(r.trace);
    var started := if watched.Some? then watched.value else Watched(poll.now, []);
    WatchedAfter(r.trace, Polled(node, r.sessions[node].productId, poll));
    OneMoreEvent(started, Wedge.Spoke(poll.now));
  }

  lemma {:induction false} AskKeepsWatch(r: ReaderState, node: Node, pass: Pass, write: Write, clock: nat)
    requires node in r.sessions && Watches(r, clock)
    ensures Watches(r.AskIfDue(node, pass, write), clock)
  {
    AskingIsNoNews(r.trace, r.Asking(node, pass.now, write.Taken?));
  }

  lemma {:induction false} AskingIsNoNews(trace: seq<Act>, asking: seq<Act>)
    requires |asking| <= 1 && forall act <- asking :: act.Asked? || act.GaveUp?
    ensures WatchedOf(trace + asking) == WatchedOf(trace)
  {
    if asking == [] {
      assert trace + asking == trace;
    } else {
      assert asking == [asking[0]] && asking[0] in asking;
      WatchedAfter(trace, asking[0]);
    }
  }

  lemma CheckKeepsWatch(r: ReaderState, node: Node, now: nat, playback: Option<bool>)
    requires node in r.sessions && Watches(r, now)
    ensures Watches(r.CheckWedge(node, now, playback), now)
  {
    WatchedAfter(r.trace, Checked(now, playback));
    if r.wedge.Some? {
      OneMoreEvent(WatchedOf(r.trace).value, Wedge.Passed(now, playback));
    }
  }

  lemma ListeningKeepsWatch(r: ReaderState, dongle: Dongle, pass: Pass, io: Io, clock: nat)
    requires Watches(r, clock) && clock <= pass.now
    ensures Watches(r.ListenTo(dongle, pass, io).0, pass.now)
  {
    if dongle.node in r.sessions || io.opens {
      var open := r.Open(dongle, pass.now);
      OpenKeepsWatch(r, dongle, pass.now, clock);
      if io.fetch.Report? {
        var heard := open.Hear(dongle.node, open.PollOf(pass, io));
        HearKeepsWatch(open, dongle.node, open.PollOf(pass, io));
        AskKeepsWatch(heard, dongle.node, pass, io.write, pass.now);
        CheckKeepsWatch(heard.AskIfDue(dongle.node, pass, io.write), dongle.node, pass.now, io.playback);
      } else {
        WatchedAfter(open.trace, Polled(dongle.node, open.sessions[dongle.node].productId, open.PollOf(pass, io)));
      }
    }
  }

  lemma {:induction false} VisitAllKeepsWatch(
    r: ReaderState, dongles: seq<Dongle>, pass: Pass, ios: seq<Io>, clock: nat)
    requires Watches(r, clock) && clock <= pass.now && |ios| == |dongles|
    ensures Watches(r.VisitAll(dongles, pass, ios).0, pass.now)
    decreases |dongles|
  {
    if dongles == [] {
    } else {
      var n := |dongles| - 1;
      VisitAllKeepsWatch(r, dongles[..n], pass, ios[..n], clock);
      var before := r.VisitAll(dongles[..n], pass, ios[..n]).0;
      ListeningKeepsWatch(before, dongles[n], pass, ios[n], pass.now);
    }
  }

  /** Over every run of the reader, the watch is where the passes have led it. */
  lemma {:induction false} WatchIsTold(
    states: seq<ReaderState>, polls: seq<Poll>, reports: seq<seq<Headset>>, i: nat)
    requires IsRun(states, polls, reports) && Timely(polls) && i <= |polls|
    ensures Watches(states[i], Clock(polls, i))
    decreases i
  {
    if i == 0 {
    } else {
      var p := polls[i - 1];
      WatchIsTold(states, polls, reports, i - 1);
      var retained := Retained(states[i - 1], p, states[i], reports[i - 1]);
      VisitAllKeepsWatch(retained, p.dongles, p.pass, p.ios, Clock(polls, i - 1));
    }
  }

  /** A silence goes on from event `k`: a dongle spoke just before it, or the watch began there. */
  ghost predicate IsSilentFrom(watched: Watched, k: nat) {
    k <= |watched.events| && Wedge.Silent(watched.events[k..]) && (k == 0 || watched.events[k - 1].Spoke?)
  }

  /** When that silence began. */
  function BeganAt(watched: Watched, k: nat): nat
    requires k <= |watched.events|
  {
    if k == 0 then watched.start else watched.events[k - 1].at
  }

  /** Once after ten minutes of silence, and once more each time so much more has gone by. */
  function Allowed(silence: nat, every: nat): nat
    requires 0 < every
  {
    if silence < Wedge.WEDGE_SILENCE then 0 else 1 + (silence - Wedge.WEDGE_SILENCE) / every
  }

  /** The watch as event `k` finds it. */
  function WatchAt(watched: Watched, k: nat): Wedge.Watch
    requires k <= |watched.events|
  {
    Wedge.Run(Wedge.NewWatch(watched.start), watched.events[..k])
  }

  /**
   So the reader warns and looks sparingly, over every run: since a dongle last spoke, or since
   the first report if none has, not at all for ten minutes, and then once, and once more per day
   or half minute; and it has a warning out exactly if it issued one in that time.
   */
  lemma {:induction false} ReaderWarnsSparingly(
    states: seq<ReaderState>, polls: seq<Poll>, reports: seq<seq<Headset>>, i: nat)
    requires IsRun(states, polls, reports) && Timely(polls) && i <= |polls| && states[i].wedge.Some?
    ensures WatchedOf(states[i].trace).Some?
    ensures var watched, clock := WatchedOf(states[i].trace).value, Clock(polls, i);
      && (states[i].wedge.value.warnedAt.Some? <==>
            Wedge.WarnedSinceSpoken(Wedge.NewWatch(watched.start), watched.events))
      && forall k: nat :: IsSilentFrom(watched, k) ==> WarnsSparingly(watched, k, clock)
  {
    WatchIsTold(states, polls, reports, i);
    var watched, clock := WatchedOf(states[i].trace).value, Clock(polls, i);
    Wedge.RecoveryIsReportedIfTheSilenceWas(watched.start, watched.events);
    forall k: nat | IsSilentFrom(watched, k)
      ensures WarnsSparingly(watched, k, clock)
    {
      SilenceIsSparing(watched, k, clock);
    }
  }

  /** What is warned, and looked at, from event `k` on is within what its silence allows. */
  ghost predicate WarnsSparingly(watched: Watched, k: nat, clock: nat) {
    && k <= |watched.events| && BeganAt(watched, k) <= clock
    && var watch, events, silence := WatchAt(watched, k), watched.events[k..], clock - BeganAt(watched, k);
      && Wedge.Warnings(watch, events) <= Allowed(silence, Wedge.WEDGE_REMINDER)
      && Wedge.Looks(watch, events) <= Allowed(silence, Wedge.PROBE_EVERY)
  }

  lemma {:induction false} SilenceIsSparing(watched: Watched, k: nat, clock: nat)
    requires watched.IsOver(clock) && IsSilentFrom(watched, k)
    ensures WarnsSparingly(watched, k, clock)
  {
    StartsAnew(watched, k);
    CountsAreAllowed(BeganAt(watched, k), watched.events[k..], clock);
  }

  lemma {:induction false} CountsAreAllowed(h: nat, events: seq<Wedge.Event>, clock: nat)
    requires Wedge.Silent(events) && Wedge.Ordered(h, events) && h <= clock
    requires forall i :: 0 <= i < |events| ==> events[i].at <= clock
    ensures Wedge.Warnings(Wedge.NewWatch(h), events) <= Allowed(clock - h, Wedge.WEDGE_REMINDER)
    ensures Wedge.Looks(Wedge.NewWatch(h), events) <= Allowed(clock - h, Wedge.PROBE_EVERY)
  {
    if clock < h + Wedge.WEDGE_SILENCE {
      Wedge.SilenceIsReportedSparingly(h, events);
    } else {
      Wedge.SilenceIsCounted(Wedge.NewWatch(h), h, events, clock);
    }
  }

  /** A silence starts with nothing on the watch. */
  lemma {:induction false} StartsAnew(watched: Watched, k: nat)
    requires IsSilentFrom(watched, k)
    ensures WatchAt(watched, k) == Wedge.NewWatch(BeganAt(watched, k))
  {
    assert k == 0 ==> watched.events[..k] == [];
    assert 0 < k ==> watched.events[..k][..k - 1] == watched.events[..k - 1];
  }
}
