/**
 The invariants of a session over every run, how its requests are spaced, what giving up
 leads to, and when a silence is asked about at all.
 */
module SessionInvariants {
  import opened Prelude
  import opened Frame
  import opened Sessions
  import opened SessionRuns

  ghost predicate Inv(s: State) {
    && (s.level.Some? ==> s.link == Up && s.level.value <= 100)
    && (s.pending ==> 1 <= s.asks)
    && (s.askedAt.None? <==> s.asks == 0)
    && (s.link == Up ==> s.unanswered < MAX_UNANSWERED)
  }

  /** Levels above 100 never come out of a report (see `Frame.Messages`). */
  ghost predicate Genuine(polls: seq<Poll>) {
    forall i :: 0 <= i < |polls| ==>
      polls[i].fetched.Some? ==> forall m <- polls[i].fetched.value :: m.Battery? ==> m.level <= 100
  }

  lemma {:induction false} HearKeepsInv(s: State, said: seq<Message>, readings: nat)
    requires Inv(s) && forall m <- said :: m.Battery? ==> m.level <= 100
    ensures Inv(s.Hear(said, readings))
    decreases |said|
  {
    if said == [] {
    } else {
      assert said[0] in said && forall m <- said[1..] :: m in said;
      HearKeepsInv(s.HearOne(said[0], readings + 1), said[1..], readings + if said[0].Battery? then 1 else 0);
    }
  }

  /** Whatever it inherits and whatever it is told, a session keeps its invariant. */
  lemma {:induction false} InvariantHolds(link: LinkState, from: nat, polls: seq<Poll>)
    requires Genuine(polls)
    ensures Inv(Run(Opened(link, from), polls))
    decreases |polls|
  {
    if polls == [] {
    } else {
      var p := polls[|polls| - 1];
      var s := Run(Opened(link, from), polls[..|polls| - 1]);
      InvariantHolds(link, from, polls[..|polls| - 1]);
      if p.fetched.Some? {
        HearKeepsInv(s, p.fetched.value, p.readings);
      }
    }
  }

  ghost predicate SendsAt(s: State, polls: seq<Poll>, i: nat)
    requires i < |polls|
  {
    Sends(Run(s, polls[..i]), polls[i])
  }

  // ----- How requests are spaced -----

  lemma {:induction false} HearKeepsAsks(s: State, said: seq<Message>, readings: nat)
    ensures var r := s.Hear(said, readings); (r.askedAt, r.asks, r.openedAt) == (s.askedAt, s.asks, s.openedAt)
  {
    if said == [] {
    } else {
      HeardReport(s, said, readings);
    }
  }

  lemma {:induction false} AskedIsRemembered(s: State, polls: seq<Poll>, i: nat)
    requires i < |polls| && SendsAt(s, polls, i) && Ordered(0, polls)
    ensures var r := Run(s, polls);
      1 <= r.asks && r.askedAt.Some? && polls[i].now <= r.askedAt.value <= Last(0, polls)
    decreases |polls|
  {
    var n := |polls| - 1;
    if i < n {
      assert polls[..n][..i] == polls[..i];
      AskedIsRemembered(s, polls[..n], i);
    }
    AskedByStep(Run(s, polls[..n]), polls[n]);
  }

  lemma {:induction false} AskedByStep(s: State, p: Poll)
    ensures var r := Step(s, p);
      && (Sends(s, p) ==> 1 <= r.asks && r.askedAt == Some(p.now))
      && (r.asks == s.asks || r.asks == s.asks + 1)
      && (r.askedAt == s.askedAt || r.askedAt == Some(p.now))
  {
    if p.fetched.Some? {
      HearKeepsAsks(s, p.fetched.value, p.readings);
    }
  }

  /**
   From any state, two requests of one session are never closer than the interval or ten
   seconds, whichever is less; and the later of the two is never sent while the headset is known
   to be gone - so at most one ever is, and it is the session's first.
   */
  lemma RequestsAreSpaced(s: State, polls: seq<Poll>, i: nat, j: nat)
    requires i < j < |polls| && Ordered(0, polls)
    requires SendsAt(s, polls, i) && SendsAt(s, polls, j)
    ensures Min(polls[j].interval, 10 * SECOND) <= polls[j].now - polls[i].now
    ensures Listened(Run(s, polls[..j]), polls[j]).link != Down
  {
    assert polls[..j][..i] == polls[..i];
    AskedIsRemembered(s, polls[..j], i);
    HearKeepsAsks(Run(s, polls[..j]), polls[j].fetched.value, polls[j].readings);
  }

  /** A session counts exactly the requests it has sent. */
  lemma {:induction false} AsksAreRequests(link: LinkState, from: nat, polls: seq<Poll>)
    ensures var s := Run(Opened(link, from), polls);
      s.asks == Requests(Opened(link, from), polls) && s.openedAt == from
    decreases |polls|
  {
    if polls == [] {
    } else {
      var p := polls[|polls| - 1];
      AsksAreRequests(link, from, polls[..|polls| - 1]);
      if p.fetched.Some? {
        HearKeepsAsks(Run(Opened(link, from), polls[..|polls| - 1]), p.fetched.value, p.readings);
      }
    }
  }

  /**
   The earliest a session opened on nothing, and told nothing, has asked `n` times: the second
   time ten seconds after the first, the third half a minute later, then once every ten minutes.
   */
  function Earliest(n: nat): nat {
    if n <= 1 then 0 else if n == 2 then 10 * SECOND else 40 * SECOND + (n - 3) * ASK_IDLE_RETRY
  }

  /** Each is the delay after the one before it. */
  lemma {:induction false} NextEarliest(n: nat)
    requires 1 <= n
    ensures Earliest(n + 1) == Earliest(n) + AskAgainDelay(n)
  {
    assert ASK_AGAIN_AFTER[0] == 10 * SECOND && ASK_AGAIN_AFTER[1] == 30 * SECOND;
  }

  /**
   The pace of a session nobody answers, exactly. The `n`-th request is never out before it has
   listened and let the quick delays, then the slow ones, go by; and with a poll at least every
   `pace` and working writes it is out no later than `pace` per request after that.
   */
  lemma {:induction false} SilentSessionIsOnSchedule(h: nat, listenFirst: nat, polls: seq<Poll>)
    requires AllQuiet(polls) && Ordered(h, polls)
    requires forall i :: 0 <= i < |polls| ==> polls[i].listenFirst == listenFirst
    ensures var s, n := Run(Opened(Unknown, h), polls), Requests(Opened(Unknown, h), polls);
      && s.link == Unknown && s.openedAt == h && s.asks == n
      && (s.askedAt.Some? <==> 0 < n)
      && (0 < n ==> h + listenFirst + Earliest(n) <= s.askedAt.value <= Last(h, polls))
    decreases |polls|
  {
    if polls == [] {
    } else {
      var n := |polls| - 1;
      var s := Opened(Unknown, h);
      SilentSessionIsOnSchedule(h, listenFirst, polls[..n]);
      NextOnSchedule(Run(s, polls[..n]), Requests(s, polls[..n]), h, Last(h, polls[..n]), polls[n]);
    }
  }

  lemma {:induction false} NextOnSchedule(s: State, n: nat, h: nat, last: nat, p: Poll)
    requires s.link == Unknown && s.openedAt == h && s.asks == n && (s.askedAt.Some? <==> 0 < n)
    requires 0 < n ==> h + p.listenFirst + Earliest(n) <= s.askedAt.value <= last
    requires p.Quiet() && h <= last <= p.now
    ensures var after, more := Step(s, p), n + if Sends(s, p) then 1 else 0;
      && after.link == Unknown && after.openedAt == h && after.asks == more
      && (after.askedAt.Some? <==> 0 < more)
      && (0 < more ==> h + p.listenFirst + Earliest(more) <= after.askedAt.value <= p.now)
  {
    if 0 < n {
      NextEarliest(n);
    }
  }

  /**
   Polls of a session that is told nothing, at most `pace` apart from `h` on, each of which
   fetches, could write, and listens first for as long.
   */
  ghost predicate Steady(h: nat, listenFirst: nat, pace: nat, polls: seq<Poll>) {
    && AllQuiet(polls) && Ordered(h, polls)
    && forall i {:trigger polls[i]} :: 0 <= i < |polls| ==>
         && polls[i].fetched.Some? && polls[i].written && polls[i].listenFirst == listenFirst
         && polls[i].now <= Last(h, polls[..i]) + pace
  }

  lemma {:induction false} SteadyBefore(h: nat, listenFirst: nat, pace: nat, polls: seq<Poll>)
    requires polls != [] && Steady(h, listenFirst, pace, polls)
    ensures var k := |polls| - 1;
      && Steady(h, listenFirst, pace, polls[..k])
      && h <= Last(h, polls[..k]) <= polls[k].now <= Last(h, polls[..k]) + pace
      && polls[k].Quiet() && polls[k].fetched.Some? && polls[k].written && polls[k].listenFirst == listenFirst
  {
  }

  /** The latest a session polled every `pace` has asked `n` times. */
  function Latest(n: nat, pace: nat): nat {
    if n == 0 then 0 else Latest(n - 1, pace) + (if n == 1 then 0 else AskAgainDelay(n - 1)) + pace
  }

  lemma {:induction false} LatestIsSoonAfterEarliest(n: nat, pace: nat)
    ensures Latest(n, pace) == Earliest(n) + n * pace
  {
    if n == 0 {
    } else {
      LatestIsSoonAfterEarliest(n - 1, pace);
      if 1 < n {
        NextEarliest(n - 1);
      }
      assert n * pace == (n - 1) * pace + pace;
    }
  }

  /** After `n` requests of a run that is polled every `pace`, the next is not overdue. */
  ghost predicate OnTime(s: State, n: nat, last: nat, start: nat, pace: nat) {
    if n == 0 then
      last < start
    else
      && s.askedAt.Some?
      && s.askedAt.value <= start + Latest(n, pace)
      && last < s.askedAt.value + AskAgainDelay(n)
  }

  lemma {:induction false} SilentSessionIsOnTime(h: nat, listenFirst: nat, pace: nat, polls: seq<Poll>)
    requires polls != [] && Steady(h, listenFirst, pace, polls)
    ensures var s := Opened(Unknown, h);
      OnTime(Run(s, polls), Requests(s, polls), Last(h, polls), h + listenFirst, pace)
    decreases |polls|
  {
    var k := |polls| - 1;
    SteadyBefore(h, listenFirst, pace, polls);
    if k == 0 {
      var s := Opened(Unknown, h);
      assert polls[..k] == [];
      assert Run(s, polls[..k]) == s && Requests(s, polls[..k]) == 0;
      FirstInTime(s, h, listenFirst, pace, polls[k]);
    } else {
      var most := polls[..k];
      SilentSessionIsOnTime(h, listenFirst, pace, most);
      SilentSessionIsOnSchedule(h, listenFirst, most);
      OneMoreInTime(h, listenFirst, pace, polls);
    }
  }

  lemma {:induction false} OneMoreInTime(h: nat, listenFirst: nat, pace: nat, polls: seq<Poll>)
    requires polls != []
    requires var s, most, p := Opened(Unknown, h), polls[..|polls| - 1], polls[|polls| - 1];
      var before, n, last := Run(s, most), Requests(s, most), Last(h, most);
      && before.link == Unknown && before.openedAt == h && before.asks == n && (before.askedAt.Some? <==> 0 < n)
      && OnTime(before, n, last, h + listenFirst, pace)
      && p.Quiet() && p.fetched.Some? && p.written && p.listenFirst == listenFirst && last <= p.now <= last + pace
    ensures var s := Opened(Unknown, h);
      OnTime(Run(s, polls), Requests(s, polls), Last(h, polls), h + listenFirst, pace)
  {
    var s, most := Opened(Unknown, h), polls[..|polls| - 1];
    NextInTime(Run(s, most), Requests(s, most), Last(h, most), h + listenFirst, pace, polls[|polls| - 1]);
  }

  /** So the next request is not overdue, and the poll that sends it will not come too late. */
  lemma {:induction false} SilentSessionIsAskedInTime(h: nat, listenFirst: nat, pace: nat, polls: seq<Poll>)
    requires polls != [] && Steady(h, listenFirst, pace, polls)
    ensures var n := Requests(Opened(Unknown, h), polls);
      Last(h, polls) + pace < h + listenFirst + Earliest(n + 1) + (n + 1) * pace
  {
    SilentSessionIsOnTime(h, listenFirst, pace, polls);
    var s := Opened(Unknown, h);
    NotOverdue(Run(s, polls), Requests(s, polls), Last(h, polls), h + listenFirst, pace);
  }

  lemma {:induction false} NotOverdue(s: State, n: nat, last: nat, start: nat, pace: nat)
    requires OnTime(s, n, last, start, pace)
    ensures last + pace < start + Earliest(n + 1) + (n + 1) * pace
  {
    LatestIsSoonAfterEarliest(n + 1, pace);
  }

  lemma {:induction false} FirstInTime(s: State, h: nat, listenFirst: nat, pace: nat, p: Poll)
    requires s == Opened(Unknown, h) && p.Quiet() && p.fetched.Some? && p.written && p.listenFirst == listenFirst
    requires h <= p.now <= h + pace
    ensures OnTime(Step(s, p), if Sends(s, p) then 1 else 0, p.now, h + listenFirst, pace)
  {
  }

  lemma {:induction false} NextInTime(s: State, n: nat, last: nat, start: nat, pace: nat, p: Poll)
    requires s.link == Unknown && s.asks == n && (s.askedAt.Some? <==> 0 < n)
    requires OnTime(s, n, last, start, pace) && start == s.openedAt + p.listenFirst
    requires p.Quiet() && p.fetched.Some? && p.written && last <= p.now <= last + pace
    ensures OnTime(Step(s, p), n + if Sends(s, p) then 1 else 0, p.now, start, pace)
  {
  }

  /** A session opened on a headset that is gone, and told nothing, asks once it has listened, and never again. */
  lemma {:induction false} GoneSessionAsksOnce(h: nat, listenFirst: nat, polls: seq<Poll>)
    requires AllQuiet(polls) && Ordered(h, polls)
    requires forall i :: 0 <= i < |polls| ==> polls[i].listenFirst == listenFirst
    ensures var s, n := Run(Opened(Down, h), polls), Requests(Opened(Down, h), polls);
      && s.link == Down && s.openedAt == h && s.asks == n <= 1
      && (s.askedAt.Some? <==> n == 1)
      && (n == 1 ==> h + listenFirst <= s.askedAt.value <= Last(h, polls))
    decreases |polls|
  {
    if polls == [] {
    } else {
      GoneSessionAsksOnce(h, listenFirst, polls[..|polls| - 1]);
    }
  }

  /**
   The earliest a session opened on a linked headset has asked it `n` times, told nothing: three
   times at the interval, and after another one, when it gives up, every ten minutes.
   */
  function EarliestLinked(n: nat, interval: nat): nat {
    if n <= 1 then 0
    else EarliestLinked(n - 1, interval) + (if n <= 4 then interval else 0) + (if 4 <= n then ASK_IDLE_RETRY else 0)
  }

  /** A session opened on a linked headset that has been told nothing, and has sent `n` requests. */
  ghost predicate LinkedOnSchedule(s: State, n: nat, h: nat, last: nat, interval: nat) {
    && s.asks == n && s.link != Down && (s.askedAt.Some? <==> 0 < n)
    && (s.link == Up ==> n <= 3 && s.Strikes() == n && (s.pending <==> 0 < n))
    && (s.link == Unknown ==> 3 <= n)
    && (0 < n ==> s.askedAt.value <= last)
    && (0 < n ==>
          h + EarliestLinked(n, interval) + (if s.link == Unknown && n == 3 then interval else 0) <= s.askedAt.value)
  }

  /** And it keeps to that, while every write succeeds. */
  lemma {:induction false} LinkedSessionIsOnSchedule(h: nat, interval: nat, polls: seq<Poll>)
    requires AllQuiet(polls) && Ordered(h, polls)
    requires forall i :: 0 <= i < |polls| ==> polls[i].interval == interval && polls[i].written
    ensures LinkedOnSchedule(Run(Opened(Up, h), polls), Requests(Opened(Up, h), polls), h, Last(h, polls), interval)
    decreases |polls|
  {
    if polls == [] {
    } else {
      var s, n := Opened(Up, h), |polls| - 1;
      LinkedSessionIsOnSchedule(h, interval, polls[..n]);
      NextLinkedOnSchedule(Run(s, polls[..n]), Requests(s, polls[..n]), h, Last(h, polls[..n]), polls[n]);
    }
  }

  lemma {:induction false} NextLinkedOnSchedule(s: State, n: nat, h: nat, last: nat, p: Poll)
    requires LinkedOnSchedule(s, n, h, last, p.interval) && p.Quiet() && p.written && h <= last <= p.now
    ensures LinkedOnSchedule(Step(s, p), n + if Sends(s, p) then 1 else 0, h, p.now, p.interval)
  {
  }

  // ----- Giving up -----

  /** Nothing asks before ten minutes have gone by since `now`, whatever the configuration. */
  ghost predicate AsksSlowlyFrom(s: State, now: nat) {
    forall t: nat, interval: nat, listenFirst: nat :: t < now + ASK_IDLE_RETRY ==>
      !s.ShouldAsk(t, interval, listenFirst)
  }

  ghost predicate AsksAt(s: State, t: nat) {
    forall interval: nat, listenFirst: nat :: s.ShouldAsk(t, interval, listenFirst)
  }

  /**
   Giving up lands in the slow cadence if and only if the session had sent
   three requests by then.
   */
  lemma GivingUpIsSlow(s: State, now: nat, written: bool)
    requires Inv(s) && s.GivesUp()
    ensures var r := s.Ask(now, written);
      && r.link == Unknown && r.level == None && !r.pending
      && (AsksSlowlyFrom(r, now) <==> 3 <= s.asks)
      && AsksAt(r, now + ASK_IDLE_RETRY)
  {
    var r := s.Ask(now, written);
    if s.asks < 3 {
      assert r.ShouldAsk(now + 30 * SECOND, 0, 0);
    }
  }

  lemma {:induction false} HearKeepsStrikesBelowAsks(s: State, said: seq<Message>, readings: nat)
    requires s.Strikes() <= s.asks
    ensures var r := s.Hear(said, readings); r.Strikes() <= r.asks
    decreases |said|
  {
    if said == [] {
    } else {
      HearKeepsStrikesBelowAsks(
        s.HearOne(said[0], readings + 1), said[1..], readings + if said[0].Battery? then 1 else 0);
    }
  }

  /** While every write succeeds, each strike is one of the session's requests. */
  lemma {:induction false} StrikesAreRequests(link: LinkState, from: nat, polls: seq<Poll>)
    requires forall i :: 0 <= i < |polls| ==> polls[i].written
    ensures var r := Run(Opened(link, from), polls); r.Strikes() <= r.asks
    decreases |polls|
  {
    if polls == [] {
    } else {
      var p := polls[|polls| - 1];
      StrikesAreRequests(link, from, polls[..|polls| - 1]);
      if p.fetched.Some? {
        HearKeepsStrikesBelowAsks(Run(Opened(link, from), polls[..|polls| - 1]), p.fetched.value, p.readings);
      }
    }
  }

  /** So, while every write succeeds, giving up always lands in the slow cadence. */
  lemma {:induction false} GivingUpIsSlowWhileWritesSucceed(link: LinkState, from: nat, polls: seq<Poll>, now: nat)
    requires Genuine(polls) && forall i :: 0 <= i < |polls| ==> polls[i].written
    requires Run(Opened(link, from), polls).GivesUp()
    ensures AsksSlowlyFrom(Run(Opened(link, from), polls).Ask(now, true), now)
  {
    InvariantHolds(link, from, polls);
    StrikesAreRequests(link, from, polls);
    GivingUpIsSlow(Run(Opened(link, from), polls), now, true);
  }

  /** A poll every so often of a session with an interval of one second. */
  function Tick(seconds: nat, said: seq<Message>, written: bool): Poll {
    Poll(seconds * SECOND, SECOND, LISTEN_FIRST, 0, Some(said), written)
  }

  /**
   A failing write breaks it: one request, three writes that fail, and the headset given up on
   then is asked again ten seconds later.
   */
  lemma FailedWritesAreStrikesToo()
    ensures var polls := [Tick(0, [Link(true)], true), Tick(1, [], false), Tick(2, [], false), Tick(3, [], false)];
      && Run(Opened(Unknown, 0), polls[..3]).GivesUp()
      && Run(Opened(Unknown, 0), polls).link == Unknown
      && Sends(Run(Opened(Unknown, 0), polls), Tick(13, [], true))
  {
    var p0, p1, p2, p3 := Tick(0, [Link(true)], true), Tick(1, [], false), Tick(2, [], false), Tick(3, [], false);
    var polls := [p0, p1, p2, p3];
    var s := Opened(Unknown, 0);
    var s1 := s.(link := Up, askedAt := Some(0), asks := 1, pending := true);
    assert s.Hear([Link(true)], 0) == s.(link := Up);
    RunOne(s, polls, 0, s, s1);
    RunOne(s, polls, 1, s1, s1.(unanswered := 1));
    RunOne(s, polls, 2, s1.(unanswered := 1), s1.(unanswered := 2));
    RunOne(s, polls, 3, s1.(unanswered := 2), s1.(link := Unknown, pending := false, askedAt := Some(3 * SECOND)));
    assert polls[..4] == polls;
  }

  lemma RunOne(s: State, polls: seq<Poll>, i: nat, before: State, after: State)
    requires i < |polls| && Run(s, polls[..i]) == before && Step(before, polls[i]) == after
    ensures Run(s, polls[..i + 1]) == after
  {
    assert polls[..i + 1][..i] == polls[..i];
  }

  // ----- Which silences are asked about -----

  /** Polls that fetch and could write, under one setting. */
  ghost predicate Working(polls: seq<Poll>, interval: nat, listenFirst: nat) {
    forall i :: 0 <= i < |polls| ==>
      polls[i].fetched.Some? && polls[i].written && polls[i].interval == interval && polls[i].listenFirst == listenFirst
  }

  lemma {:induction false} NothingSentNothingChanged(s: State, polls: seq<Poll>, interval: nat, listenFirst: nat)
    requires AllQuiet(polls) && Working(polls, interval, listenFirst) && !s.GivesUp()
    ensures Requests(s, polls) == 0 <==> forall i :: 0 <= i < |polls| ==> !Asks(s, polls[i])
    ensures Requests(s, polls) == 0 ==> Run(s, polls) == s
    decreases |polls|
  {
    if polls == [] {
    } else {
      NothingSentNothingChanged(s, polls[..|polls| - 1], interval, listenFirst);
      assert forall i :: 0 <= i < |polls| - 1 ==> polls[..|polls| - 1][i] == polls[i];
    }
  }

  /** Time only makes a request more due: the last poll asks if any of them would. */
  lemma {:induction false} LastAsksIfAnyDoes(s: State, polls: seq<Poll>, interval: nat, listenFirst: nat, from: nat)
    requires polls != [] && AllQuiet(polls) && Working(polls, interval, listenFirst) && Ordered(from, polls)
    requires !s.GivesUp()
    ensures 1 <= Requests(s, polls) <==> s.ShouldAsk(Last(from, polls), interval, listenFirst)
  {
    NothingSentNothingChanged(s, polls, interval, listenFirst);
    forall i | 0 <= i < |polls| && Asks(s, polls[i])
      ensures Asks(s, polls[|polls| - 1])
    {
    }
  }

  /** The first poll below `n` that is due, or `n`. */
  ghost function FirstDue(s: State, polls: seq<Poll>, interval: nat, listenFirst: nat, n: nat): (k: nat)
    requires n <= |polls|
    ensures k <= n && (k < n ==> s.ShouldAsk(polls[k].now, interval, listenFirst))
    ensures forall j :: 0 <= j < k ==> !s.ShouldAsk(polls[j].now, interval, listenFirst)
  {
    if n == 0 then
      0
    else
      var k := FirstDue(s, polls, interval, listenFirst, n - 1);
      k + if k == n - 1 && !s.ShouldAsk(polls[k].now, interval, listenFirst) then 1 else 0
  }

  /** A session that is to give up does so on the first poll due, and asks again after a delay. */
  ghost predicate HasAskedAgain(s: State, polls: seq<Poll>, interval: nat, listenFirst: nat) {
    var k := FirstDue(s, polls, interval, listenFirst, |polls|);
    k < |polls| && polls[k].now + AskAgainDelay(s.asks) <= Last(0, polls)
  }

  /**
   Whether a session in state `s` has asked by the last of these polls, of which only the first
   may have heard something: if it is due then - or, if its headset is to be given up on, once
   the delay after that is over.
   */
  ghost predicate HasAsked(s: State, polls: seq<Poll>, interval: nat, listenFirst: nat)
    requires polls != [] && polls[0].fetched.Some?
  {
    var heard := Listened(s, polls[0]);
    if heard.GivesUp() then
      HasAskedAgain(heard, polls, interval, listenFirst)
    else
      heard.ShouldAsk(Last(0, polls), interval, listenFirst)
  }

  /** That is exact, from any state and for every setting, while fetches and writes succeed. */
  lemma {:induction false} QuietSessionAsks(s: State, polls: seq<Poll>, interval: nat, listenFirst: nat)
    requires polls != [] && Ordered(0, polls) && Working(polls, interval, listenFirst) && AllQuiet(polls[1..])
    ensures 1 <= Requests(s, polls) <==> HasAsked(s, polls, interval, listenFirst)
  {
    var heard := Listened(s, polls[0]);
    var window := [polls[0].(fetched := Some([]))] + polls[1..];
    WindowFromHeard(s, polls);
    WindowIsQuiet(polls, window, interval, listenFirst);
    if heard.GivesUp() {
      GivenUpAsksAgain(heard, window, interval, listenFirst);
      WindowTimes(polls, window);
      FirstDueByTimes(heard, polls, window, interval, listenFirst, |polls|);
    } else {
      LastAsksIfAnyDoes(heard, window, interval, listenFirst, 0);
    }
  }

  lemma {:induction false} WindowTimes(polls: seq<Poll>, window: seq<Poll>)
    requires polls != [] && window == [polls[0].(fetched := Some([]))] + polls[1..]
    ensures |window| == |polls| && forall i :: 0 <= i < |polls| ==> window[i].now == polls[i].now
    ensures forall i :: 1 <= i < |polls| ==> window[i] == polls[i] && polls[1..][i - 1] == polls[i]
  {
  }

  lemma {:induction false} WindowIsQuiet(polls: seq<Poll>, window: seq<Poll>, interval: nat, listenFirst: nat)
    requires polls != [] && window == [polls[0].(fetched := Some([]))] + polls[1..]
    requires Ordered(0, polls) && Working(polls, interval, listenFirst) && AllQuiet(polls[1..])
    ensures Ordered(0, window) && Working(window, interval, listenFirst) && AllQuiet(window)
    ensures Last(0, window) == Last(0, polls)
  {
    WindowTimes(polls, window);
    forall i | 0 <= i < |window|
      ensures window[i].Quiet()
    {
      assert 1 <= i ==> polls[1..][i - 1].Quiet();
    }
  }

  lemma {:induction false} FirstDueByTimes(
    s: State, polls: seq<Poll>, others: seq<Poll>, interval: nat, listenFirst: nat, n: nat)
    requires n <= |polls| == |others| && forall i :: 0 <= i < n ==> polls[i].now == others[i].now
    ensures FirstDue(s, polls, interval, listenFirst, n) == FirstDue(s, others, interval, listenFirst, n)
  {
    if n == 0 {
    } else {
      FirstDueByTimes(s, polls, others, interval, listenFirst, n - 1);
    }
  }

  lemma {:induction false} GivenUpAsksAgain(s: State, polls: seq<Poll>, interval: nat, listenFirst: nat)
    requires Ordered(0, polls) && Working(polls, interval, listenFirst) && AllQuiet(polls) && s.GivesUp()
    ensures 1 <= Requests(s, polls) <==> HasAskedAgain(s, polls, interval, listenFirst)
  {
    var k := FirstDue(s, polls, interval, listenFirst, |polls|);
    NeverDueNeverAsks(s, polls[..k], interval, listenFirst);
    if k == |polls| {
      assert polls[..k] == polls;
    } else {
      assert polls == polls[..k] + ([polls[k]] + polls[k + 1..]);
      AskedOnlyAfter(s, polls[..k], [polls[k]] + polls[k + 1..]);
      GivenUpFrom(s, polls, k, interval, listenFirst);
    }
  }

  lemma {:induction false} GivenUpFrom(s: State, polls: seq<Poll>, k: nat, interval: nat, listenFirst: nat)
    requires Ordered(0, polls) && Working(polls, interval, listenFirst) && AllQuiet(polls) && s.GivesUp()
    requires k < |polls| && s.ShouldAsk(polls[k].now, interval, listenFirst)
    ensures 1 <= Requests(s, [polls[k]] + polls[k + 1..]) <==> polls[k].now + AskAgainDelay(s.asks) <= Last(0, polls)
  {
    GivenUpFirst(s, polls[k], polls[k + 1..], interval, listenFirst);
  }

  lemma {:induction false} AskedOnlyAfter(s: State, before: seq<Poll>, rest: seq<Poll>)
    requires Run(s, before) == s && Requests(s, before) == 0
    ensures Requests(s, before + rest) == Requests(s, rest)
  {
    RunSplits(s, before, rest);
  }

  lemma {:induction false} NeverDueNeverAsks(s: State, polls: seq<Poll>, interval: nat, listenFirst: nat)
    requires AllQuiet(polls) && Working(polls, interval, listenFirst)
    requires forall j :: 0 <= j < |polls| ==> !s.ShouldAsk(polls[j].now, interval, listenFirst)
    ensures Run(s, polls) == s && Requests(s, polls) == 0
    decreases |polls|
  {
    if polls == [] {
    } else {
      NeverDueNeverAsks(s, polls[..|polls| - 1], interval, listenFirst);
    }
  }

  /** The poll that gives up, and what follows: it is asked again once the delay is over. */
  lemma {:induction false} GivenUpFirst(s: State, p: Poll, rest: seq<Poll>, interval: nat, listenFirst: nat)
    requires s.GivesUp() && p.Quiet() && p.fetched.Some? && Asks(s, p)
    requires AllQuiet(rest) && Working(rest, interval, listenFirst) && Ordered(p.now, rest)
    ensures 1 <= Requests(s, [p] + rest) <==> p.now + AskAgainDelay(s.asks) <= Last(p.now, rest)
  {
    RunSplits(s, [p], rest);
    assert [p][..0] == [];
    var after := Step(s, p);
    assert Run(s, [p]) == after && Requests(s, [p]) == 0;
    if rest != [] {
      LastAsksIfAnyDoes(after, rest, interval, listenFirst, p.now);
    }
  }

  /** The headset of this session, as the last message leaves it, is asked about by `t`. */
  predicate IsAskedAboutBy(s: State, last: Message, interval: nat, listenFirst: nat, t: nat) {
    if last == Link(false) then
      s.askedAt.None? && s.openedAt + listenFirst <= t
    else
      s.askedAt.None? || s.askedAt.value + interval <= t
  }

  /**
   Exactly which silences are asked about, while fetches and writes succeed, for every interval:
   a headset reported gone is, once the session has listened, if it has never asked; any other is
   once the interval has gone by since the last request, or if there has been none.
   */
  lemma {:induction false} SilenceIsAskedAbout(s: State, polls: seq<Poll>, interval: nat, listenFirst: nat)
    requires polls != [] && Ordered(polls[0].now, polls) && Working(polls, interval, listenFirst)
    requires polls[0].fetched.value != [] && AllQuiet(polls[1..])
    requires s.openedAt <= polls[0].now && (s.askedAt.Some? ==> s.askedAt.value <= polls[0].now)
    ensures var said := polls[0].fetched.value;
      1 <= Requests(s, polls) <==> IsAskedAboutBy(s, said[|said| - 1], interval, listenFirst, Last(0, polls))
  {
    var heard := Listened(s, polls[0]);
    HeardReport(s, polls[0].fetched.value, polls[0].readings);
    var window := [polls[0].(fetched := Some([]))] + polls[1..];
    WindowFromHeard(s, polls);
    assert window[|window| - 1].now == Last(0, polls);
    LastAsksIfAnyDoes(heard, window, interval, listenFirst, polls[0].now);
  }

  /**
   So with an interval and a listening time of at most ten minutes, a silence of ten minutes has
   been asked about unless, and only unless, the headset was reported gone to a session that had
   asked.
   */
  lemma {:induction false} TenMinutesAreAskedAbout(s: State, polls: seq<Poll>, interval: nat, listenFirst: nat)
    requires polls != [] && Ordered(polls[0].now, polls) && Working(polls, interval, listenFirst)
    requires polls[0].fetched.value != [] && AllQuiet(polls[1..])
    requires s.openedAt <= polls[0].now && (s.askedAt.Some? ==> s.askedAt.value <= polls[0].now)
    requires interval <= ASK_IDLE_RETRY && listenFirst <= ASK_IDLE_RETRY
    requires polls[0].now + ASK_IDLE_RETRY <= Last(0, polls)
    ensures var said := polls[0].fetched.value;
      1 <= Requests(s, polls) <==> !(said[|said| - 1] == Link(false) && s.askedAt.Some?)
  {
    SilenceIsAskedAbout(s, polls, interval, listenFirst);
  }

  /** What the first poll heard may as well have been heard before it. */
  lemma WindowFromHeard(s: State, polls: seq<Poll>)
    requires polls != [] && polls[0].fetched.Some?
    ensures Requests(s, polls) == Requests(Listened(s, polls[0]), [polls[0].(fetched := Some([]))] + polls[1..])
  {
    var first := polls[0].(fetched := Some([]));
    assert polls == [polls[0]] + polls[1..];
    RunSplits(s, [polls[0]], polls[1..]);
    RunSplits(Listened(s, polls[0]), [first], polls[1..]);
    assert [polls[0]][..0] == [] && [first][..0] == [];
  }

  /**
   A session that was just opened is asked about on its first poll if it was opened on a linked
   headset, and otherwise exactly once it has listened, whatever the interval.
   */
  lemma {:induction false} OpeningIsAskedAbout(
    link: LinkState, h: nat, polls: seq<Poll>, interval: nat, listenFirst: nat)
    requires polls != [] && Ordered(h, polls) && Working(polls, interval, listenFirst) && AllQuiet(polls)
    ensures 1 <= Requests(Opened(link, h), polls) <==> link == Up || h + listenFirst <= Last(h, polls)
  {
    LastAsksIfAnyDoes(Opened(link, h), polls, interval, listenFirst, h);
  }

  /** Two ways a headset that was asked once stays silent for ten minutes and is not asked again. */
  function AskedOnce(interval: nat, second: seq<Message>): seq<Poll> {
    [Poll(0, interval, LISTEN_FIRST, 0, Some([Link(true)]), true),
     Poll(SECOND, interval, LISTEN_FIRST, 0, Some(second), true),
     Poll(SECOND + ASK_IDLE_RETRY, interval, LISTEN_FIRST, 0, Some([]), true)]
  }

  /** It is reported gone; or it answers, and the interval is an hour. */
  lemma TenMinutesNotAskedAbout(interval: nat, second: seq<Message>)
    requires (interval == SECOND && second == [Link(false)]) || (interval == 3600 * SECOND && second == [Battery(50)])
    ensures var polls := AskedOnce(interval, second);
      Requests(Opened(Unknown, 0), polls[..1]) == 1 && Requests(Run(Opened(Unknown, 0), polls[..1]), polls[1..]) == 0
  {
    var polls, s := AskedOnce(interval, second), Opened(Unknown, 0);
    assert s.Hear([Link(true)], 0) == s.(link := Up);
    assert Run(s, polls[..0]) == s && Requests(s, polls[..0]) == 0;
    RunOne(s, polls, 0, s, s.(link := Up, askedAt := Some(0), asks := 1, pending := true));
    assert polls[..1][..0] == polls[..0];
    SilenceIsAskedAbout(Run(s, polls[..1]), polls[1..], interval, LISTEN_FIRST);
  }

  // ----- The budget is tight -----

  /** When a mute headset is asked for the `slow`-th time in the slow cadence, in seconds. */
  function SlowSecond(slow: nat): nat {
    3 + 600 * slow
  }

  /** The polls of a headset that is announced and stays mute, asked every second while that lasts. */
  function MutePolls(slow: nat): seq<Poll> {
    if slow == 0 then
      [Tick(0, [Link(true)], true), Tick(1, [], true), Tick(2, [], true), Tick(3, [], true)]
    else
      MutePolls(slow - 1) + [Tick(SlowSecond(slow), [], true)]
  }

  /** For every number of slow requests there is a run that sends as many as the budget allows. */
  lemma {:induction false} BudgetIsReached(slow: nat)
    ensures var polls, s := MutePolls(slow), Opened(Unknown, 0);
      && polls != [] && polls[0] == Tick(0, [Link(true)], true) && AllQuiet(polls[1..])
      && Last(0, polls) == SlowSecond(slow) * SECOND
      && Requests(s, polls) == 3 + SlowRequests(Last(0, polls)) == 3 + slow
  {
    MutePollsAsk(slow);
    SlowRequestsFit(SlowSecond(slow) * SECOND);
  }

  lemma {:induction false} MutePollsAsk(slow: nat)
    ensures var polls, s := MutePolls(slow), Opened(Unknown, 0);
      && polls != [] && polls[0] == Tick(0, [Link(true)], true) && AllQuiet(polls[1..])
      && Last(0, polls) == SlowSecond(slow) * SECOND
      && Requests(s, polls) == 3 + slow && Run(s, polls) == AfterMutePolls(slow)
    decreases slow
  {
    if slow == 0 {
      MuteIsGivenUpOn();
    } else {
      MutePollsAsk(slow - 1);
      var polls := MutePolls(slow);
      assert polls[..|polls| - 1] == MutePolls(slow - 1);
      OneMoreSlowRequest(slow);
    }
  }

  function AfterMutePolls(slow: nat): State {
    Opened(Unknown, 0).(askedAt := Some(SlowSecond(slow) * SECOND), asks := 3 + slow,
                        pending := 0 < slow, unanswered := if slow == 0 then 0 else slow - 1)
  }

  lemma {:induction false} OneMoreSlowRequest(slow: nat)
    requires 0 < slow
    ensures var s, p := AfterMutePolls(slow - 1), Tick(SlowSecond(slow), [], true);
      Sends(s, p) && Step(s, p) == AfterMutePolls(slow)
  {
  }

  lemma {:induction false} MuteIsGivenUpOn()
    ensures var polls, s := MutePolls(0), Opened(Unknown, 0);
      && Requests(s, polls) == 3
      && Run(s, polls) == s.(askedAt := Some(3 * SECOND), asks := 3)
  {
    var polls := MutePolls(0);
    var s := Opened(Unknown, 0);
    var s1 := s.(link := Up, askedAt := Some(0), asks := 1, pending := true);
    var s2 := s1.(askedAt := Some(SECOND), asks := 2, unanswered := 1);
    var s3 := s2.(askedAt := Some(2 * SECOND), asks := 3, unanswered := 2);
    assert s.Hear([Link(true)], 0) == s.(link := Up);
    RunAndCount(s, polls, 0, s, s1, 0);
    RunAndCount(s, polls, 1, s1, s2, 1);
    RunAndCount(s, polls, 2, s2, s3, 2);
    RunAndCount(s, polls, 3, s3, s.(askedAt := Some(3 * SECOND), asks := 3), 3);
    assert polls[..4] == polls;
  }

  lemma {:induction false} RunAndCount(s: State, polls: seq<Poll>, i: nat, before: State, after: State, n: nat)
    requires i < |polls| && Run(s, polls[..i]) == before && Requests(s, polls[..i]) == n
    requires Step(before, polls[i]) == after
    ensures Run(s, polls[..i + 1]) == after
    ensures Requests(s, polls[..i + 1]) == n + if Sends(before, polls[i]) then 1 else 0
  {
    assert polls[..i + 1][..i] == polls[..i];
  }
}
