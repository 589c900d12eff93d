/**
 What holds over whole runs of a session, polled in any way: the request budget the reader
 exists to keep, the invariants behind it, and how it is counted.
 */
module SessionRuns {
  import opened Prelude
  import opened Frame
  import opened Sessions

  /** One poll of a session: `fetched` is what the report said, unless the fetch failed. */
  datatype Poll = Poll(
    now: nat,
    interval: nat,
    listenFirst: nat,
    readings: nat,
    fetched: Option<seq<Message>>,
    written: bool)
  {
    predicate Quiet() {
      fetched.Some? ==> fetched.value == []
    }
  }

  function Listened(s: State, p: Poll): State {
    if p.fetched.Some? then s.Hear(p.fetched.value, p.readings) else s
  }

  /** Whether the poll asks at all; a failed fetch ends it before that. */
  predicate Asks(s: State, p: Poll) {
    p.fetched.Some? && Listened(s, p).ShouldAsk(p.now, p.interval, p.listenFirst)
  }

  /** Whether the poll sends a request. */
  predicate Sends(s: State, p: Poll) {
    Asks(s, p) && !Listened(s, p).GivesUp() && p.written
  }

  function Step(s: State, p: Poll): State {
    if Asks(s, p) then Listened(s, p).Ask(p.now, p.written) else Listened(s, p)
  }

  function Run(s: State, polls: seq<Poll>): State {
    if polls == [] then s else Step(Run(s, polls[..|polls| - 1]), polls[|polls| - 1])
  }

  /** How many requests a run sends. */
  function Requests(s: State, polls: seq<Poll>): nat {
    if polls == [] then
      0
    else
      var before := polls[..|polls| - 1];
      Requests(s, before) + if Sends(Run(s, before), polls[|polls| - 1]) then 1 else 0
  }

  /** Time never runs backwards from one poll to the next, starting at `from`. */
  ghost predicate Ordered(from: nat, polls: seq<Poll>) {
    && (forall i :: 0 <= i < |polls| ==> from <= polls[i].now)
    && (forall i, j :: 0 <= i < j < |polls| ==> polls[i].now <= polls[j].now)
  }

  ghost predicate AllQuiet(polls: seq<Poll>) {
    forall i :: 0 <= i < |polls| ==> polls[i].Quiet()
  }

  function Last(from: nat, polls: seq<Poll>): nat {
    if polls == [] then from else polls[|polls| - 1].now
  }

  lemma {:induction false} RunSplits(s: State, first: seq<Poll>, rest: seq<Poll>)
    ensures Run(s, first + rest) == Run(Run(s, first), rest)
    ensures Requests(s, first + rest) == Requests(s, first) + Requests(Run(s, first), rest)
    decreases |rest|
  {
    if rest == [] {
      assert first + rest == first;
    } else {
      var most := rest[..|rest| - 1];
      RunSplits(s, first, most);
      assert (first + rest)[..|first + rest| - 1] == first + most;
    }
  }

  // ----- The request budget -----

  /**
   What `n` requests, sent since `h` without anything being heard, leave behind at time `t`: as
   many strikes while the link is up; at most one while it is down; and once the headset is given
   up on, or was never known, three quick ones and then one every ten minutes.
   */
  ghost predicate InWindow(s: State, h: nat, n: nat, t: nat) {
    match s.link
    case Up => n <= s.Strikes() && s.unanswered < MAX_UNANSWERED && n <= s.asks
    case Down => n <= if s.askedAt.None? then 0 else 1
    case Unknown =>
      && n <= s.asks
      && (n > 0 ==> s.askedAt.Some?)
      && (s.askedAt.Some? ==> h <= s.askedAt.value <= t && WithinBudget(n, 1, s.askedAt.value - h))
  }

  /** How many slow requests fit in a time: one for every ten minutes of it. */
  function SlowRequests(elapsed: nat): nat {
    if elapsed < ASK_IDLE_RETRY then 0 else 1 + SlowRequests(elapsed - ASK_IDLE_RETRY)
  }

  lemma {:induction false} SlowRequestsFit(elapsed: nat)
    ensures SlowRequests(elapsed) == elapsed / ASK_IDLE_RETRY
  {
    if ASK_IDLE_RETRY <= elapsed {
      SlowRequestsFit(elapsed - ASK_IDLE_RETRY);
    }
  }

  lemma {:induction false} SlowRequestsAdd(elapsed: nat, more: nat, whole: nat)
    requires elapsed + more <= whole
    ensures SlowRequests(elapsed) + SlowRequests(more) <= SlowRequests(whole)
    decreases whole
  {
    if ASK_IDLE_RETRY <= elapsed {
      SlowRequestsAdd(elapsed - ASK_IDLE_RETRY, more, whole - ASK_IDLE_RETRY);
    } else if ASK_IDLE_RETRY <= more {
      SlowRequestsAdd(elapsed, more - ASK_IDLE_RETRY, whole - ASK_IDLE_RETRY);
    }
  }

  /** Three requests for each of `silences` silences, and one for every ten minutes of `elapsed`. */
  predicate WithinBudget(n: nat, silences: nat, elapsed: nat) {
    n <= 3 * silences + SlowRequests(elapsed)
  }

  lemma WindowStarts(s: State, p: Poll)
    requires p.fetched.Some? && p.fetched.value != []
    ensures InWindow(Step(s, p), p.now, if Sends(s, p) then 1 else 0, p.now)
  {
    HeardReport(s, p.fetched.value, p.readings);
  }

  lemma WindowGoesOn(s: State, h: nat, n: nat, t: nat, p: Poll)
    requires InWindow(s, h, n, t) && p.Quiet() && h <= t <= p.now
    ensures InWindow(Step(s, p), h, n + if Sends(s, p) then 1 else 0, p.now)
  {
    assert Listened(s, p) == s;
    if s.link == Unknown && s.askedAt.Some? && Asks(s, p) && 3 <= s.asks {
      SlowRequestsAdd(s.askedAt.value - h, ASK_IDLE_RETRY, p.now - h);
      assert SlowRequests(ASK_IDLE_RETRY) == 1 + SlowRequests(0);
    }
  }

  lemma {:induction false} WindowRuns(s: State, h: nat, n: nat, t: nat, polls: seq<Poll>)
    requires InWindow(s, h, n, t) && h <= t && AllQuiet(polls) && Ordered(t, polls)
    ensures InWindow(Run(s, polls), h, n + Requests(s, polls), Last(t, polls))
    decreases |polls|
  {
    if polls == [] {
    } else {
      var most := polls[..|polls| - 1];
      WindowRuns(s, h, n, t, most);
      WindowGoesOn(Run(s, most), h, n + Requests(s, most), Last(t, most), polls[|polls| - 1]);
    }
  }

  lemma WindowKeepsBudget(s: State, h: nat, n: nat, t: nat)
    requires InWindow(s, h, n, t) && h <= t
    ensures WithinBudget(n, 1, t - h)
  {
    if s.link == Unknown && s.askedAt.Some? {
      SlowRequestsAdd(s.askedAt.value - h, 0, t - h);
    }
  }

  /**
   The request budget, from any state whatever: a session that heard something on the first of
   these polls and nothing since has sent at most three requests, and one more for every ten
   minutes since - for every interval, with fetches and writes failing at will.
   */
  lemma {:induction false} RequestBudget(s: State, polls: seq<Poll>)
    requires polls != [] && Ordered(polls[0].now, polls)
    requires polls[0].fetched.Some? && polls[0].fetched.value != [] && AllQuiet(polls[1..])
    ensures WithinBudget(Requests(s, polls), 1, Last(0, polls) - polls[0].now)
  {
    var h := polls[0].now;
    FirstPollThenRest(s, polls);
    WindowStarts(s, polls[0]);
    WindowRuns(Step(s, polls[0]), h, if Sends(s, polls[0]) then 1 else 0, h, polls[1..]);
    WindowKeepsBudget(Run(s, polls), h, Requests(s, polls), Last(h, polls[1..]));
  }

  lemma FirstPollThenRest(s: State, polls: seq<Poll>)
    requires polls != []
    ensures Run(s, polls) == Run(Step(s, polls[0]), polls[1..])
    ensures Requests(s, polls) == (if Sends(s, polls[0]) then 1 else 0) + Requests(Step(s, polls[0]), polls[1..])
    ensures Last(0, polls) == Last(polls[0].now, polls[1..])
  {
    var first := polls[..1];
    assert first[..0] == [] && polls == first + polls[1..];
    RunSplits(s, first, polls[1..]);
  }

  /** The same for a session that has heard nothing since it was opened, whatever it inherited. */
  lemma {:induction false} RequestBudgetFromOpening(link: LinkState, h: nat, polls: seq<Poll>)
    requires AllQuiet(polls) && Ordered(h, polls)
    ensures WithinBudget(Requests(Opened(link, h), polls), 1, Last(h, polls) - h)
  {
    WindowRuns(Opened(link, h), h, 0, h, polls);
    WindowKeepsBudget(Run(Opened(link, h), polls), h, Requests(Opened(link, h), polls), Last(h, polls));
  }

  /** How many polls heard something. */
  function Heard(polls: seq<Poll>): nat {
    if polls == [] then
      0
    else
      Heard(polls[..|polls| - 1]) + if polls[|polls| - 1].Quiet() then 0 else 1
  }

  /** Over a whole session: three requests per silence, and one per ten minutes. */
  lemma {:induction false} SessionBudget(link: LinkState, from: nat, polls: seq<Poll>)
    requires Ordered(from, polls)
    ensures WithinBudget(Requests(Opened(link, from), polls), 1 + Heard(polls), Last(from, polls) - from)
    decreases |polls|
  {
    if AllQuiet(polls) {
      QuietCounts(polls);
      RequestBudgetFromOpening(link, from, polls);
    } else {
      var before, window := LastWindow(from, polls);
      SessionBudget(link, from, before);
      OneMoreSilence(Opened(link, from), from, before, window);
    }
  }

  /** The polls from the last one that heard something on, and those before it. */
  lemma {:induction false} LastWindow(from: nat, polls: seq<Poll>) returns (before: seq<Poll>, window: seq<Poll>)
    requires Ordered(from, polls) && !AllQuiet(polls)
    ensures polls == before + window && |before| < |polls| && IsWindow(window)
    ensures Ordered(from, before) && Ordered(window[0].now, window)
    ensures from <= Last(from, before) <= window[0].now && Last(0, window) == Last(from, polls)
  {
    var k := LastLoud(polls, |polls|);
    before, window := polls[..k], polls[k..];
    OrderedSplits(from, polls, k);
  }

  /** A window starts with the only poll of it that heard something. */
  ghost predicate IsWindow(window: seq<Poll>) {
    window != [] && !window[0].Quiet() && AllQuiet(window[1..])
  }

  lemma {:induction false} OneMoreSilence(s: State, from: nat, before: seq<Poll>, window: seq<Poll>)
    requires IsWindow(window) && Ordered(window[0].now, window) && from <= Last(from, before) <= window[0].now
    requires WithinBudget(Requests(s, before), 1 + Heard(before), Last(from, before) - from)
    ensures WithinBudget(Requests(s, before + window), 1 + Heard(before + window), Last(0, window) - from)
  {
    RequestBudget(Run(s, before), window);
    var elapsed, silence := Last(from, before) - from, Last(0, window) - window[0].now;
    OneMoreWindow(s, before, window, elapsed, silence, Last(0, window) - from);
  }

  lemma {:induction false} OneMoreWindow(
    s: State, before: seq<Poll>, window: seq<Poll>, elapsed: nat, silence: nat, whole: nat)
    requires IsWindow(window)
    requires WithinBudget(Requests(s, before), 1 + Heard(before), elapsed)
    requires WithinBudget(Requests(Run(s, before), window), 1, silence)
    requires elapsed + silence <= whole
    ensures WithinBudget(Requests(s, before + window), 1 + Heard(before + window), whole)
  {
    WindowCounts(s, before, window);
    BudgetsJoin(Requests(s, before), 1 + Heard(before), elapsed, Requests(Run(s, before), window), silence, whole);
  }

  lemma WindowCounts(s: State, before: seq<Poll>, window: seq<Poll>)
    requires IsWindow(window)
    ensures Heard(before + window) == Heard(before) + 1
    ensures Requests(s, before + window) == Requests(s, before) + Requests(Run(s, before), window)
  {
    RunSplits(s, before, window);
    HeardSplits(before, window);
    OneLoudThenQuiet(window);
  }

  lemma OrderedSplits(from: nat, polls: seq<Poll>, k: nat)
    requires Ordered(from, polls) && k < |polls|
    ensures Ordered(from, polls[..k]) && Ordered(polls[k].now, polls[k..])
    ensures from <= Last(from, polls[..k]) <= polls[k].now <= Last(from, polls)
    ensures Last(0, polls[k..]) == Last(from, polls)
  {
  }

  lemma OneLoudThenQuiet(window: seq<Poll>)
    requires IsWindow(window)
    ensures Heard(window) == 1
  {
    assert window == [window[0]] + window[1..] && [window[0]][..0] == [];
    HeardSplits([window[0]], window[1..]);
    QuietCounts(window[1..]);
  }

  /** The index of the last poll below `n` that heard something, or `|polls|`. */
  ghost function LastLoud(polls: seq<Poll>, n: nat): (k: nat)
    requires n <= |polls|
    ensures k < n || k == |polls|
    ensures k < |polls| ==> !polls[k].Quiet()
    ensures forall i :: (if k < |polls| then k + 1 else 0) <= i < n ==> polls[i].Quiet()
  {
    if n == 0 then |polls| else if !polls[n - 1].Quiet() then n - 1 else LastLoud(polls, n - 1)
  }

  lemma {:induction false} QuietCounts(polls: seq<Poll>)
    requires AllQuiet(polls)
    ensures Heard(polls) == 0
    decreases |polls|
  {
    if polls == [] {
    } else {
      QuietCounts(polls[..|polls| - 1]);
    }
  }

  lemma {:induction false} HeardSplits(first: seq<Poll>, rest: seq<Poll>)
    ensures Heard(first + rest) == Heard(first) + Heard(rest)
    decreases |rest|
  {
    if rest == [] {
      assert first + rest == first;
    } else {
      HeardSplits(first, rest[..|rest| - 1]);
      assert (first + rest)[..|first + rest| - 1] == first + rest[..|rest| - 1];
    }
  }

  lemma BudgetsJoin(n: nat, silences: nat, elapsed: nat, more: nat, window: nat, whole: nat)
    requires WithinBudget(n, silences, elapsed) && WithinBudget(more, 1, window)
    requires elapsed + window <= whole
    ensures WithinBudget(n + more, silences + 1, whole)
  {
    SlowRequestsAdd(elapsed, window, whole);
  }
}
