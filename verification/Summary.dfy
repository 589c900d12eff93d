/** What a poll found, and when it is worth a line (src/bridge/mod.rs, `Summary` and `announce`). */
module Summaries {
  import opened Prelude
  import opened Headsets

  const SUMMARY_SETTLE: nat := 5 * SECOND

  datatype Summary = NoDevice | NoBattery | Offline | Online

  function SummaryOf(headsets: seq<Headset>): Summary {
    if headsets == [] then NoDevice
    else if forall h <- headsets :: !h.supportsBattery then NoBattery
    else if forall h <- headsets | h.supportsBattery :: h.battery.Unavailable? || h.battery.Disconnected? then Offline
    else Online
  }

  datatype Unsettled = Unsettled(summary: Summary, since: nat)

  /** What was last said, and a summary that differs from it, with since when. */
  datatype News = News(last: Option<Summary>, unsettled: Option<Unsettled>)
  {
    /** Whether a summary found at `now` is worth a line. */
    predicate Says(summary: Summary, now: nat) {
      && last != Some(summary)
      && unsettled.Some? && unsettled.value.summary == summary
      && Since(now, unsettled.value.since) >= SUMMARY_SETTLE
    }

    function Announce(summary: Summary, now: nat): News {
      if last == Some(summary) then
        this.(unsettled := None)
      else if unsettled.Some? && unsettled.value.summary == summary then
        if Says(summary, now) then News(Some(summary), None) else this
      else
        this.(unsettled := Some(Unsettled(summary, now)))
    }
  }

  /** What a poll found, and when. */
  datatype Found = Found(summary: Summary, at: nat)

  function Run(found: seq<Found>): News {
    if found == [] then
      News(None, None)
    else
      Run(found[..|found| - 1]).Announce(found[|found| - 1].summary, found[|found| - 1].at)
  }

  /** From poll `i` on, every poll found the same. */
  ghost predicate LastsFrom(found: seq<Found>, i: nat, summary: Summary) {
    i < |found| && forall j :: i <= j < |found| ==> found[j].summary == summary
  }

  /**
   What is unsettled has been found by every poll since; so a line is only ever said of a summary
   that every poll has found for five seconds, and that was not the last thing said.
   */
  lemma {:induction false} WhatIsSaidHasLasted(found: seq<Found>)
    ensures var news := Run(found);
      news.unsettled.Some? ==>
        && news.last != Some(news.unsettled.value.summary)
        && exists i: nat ::
             LastsFrom(found, i, news.unsettled.value.summary) && found[i].at == news.unsettled.value.since
    ensures found != [] && Run(found[..|found| - 1]).Says(found[|found| - 1].summary, found[|found| - 1].at) ==>
      && Run(found[..|found| - 1]).last != Run(found).last == Some(found[|found| - 1].summary)
      && exists i: nat :: LastsFrom(found, i, found[|found| - 1].summary)
                          && SUMMARY_SETTLE <= Since(found[|found| - 1].at, found[i].at)
    decreases |found|
  {
    if found == [] {
    } else {
      var n := |found| - 1;
      var most := found[..n];
      WhatIsSaidHasLasted(most);
      var news := Run(most);
      if news.unsettled.Some? && news.unsettled.value.summary == found[n].summary {
        var i: nat :| LastsFrom(most, i, found[n].summary) && most[i].at == news.unsettled.value.since;
        assert LastsFrom(found, i, found[n].summary) && found[i].at == most[i].at;
      } else {
        assert LastsFrom(found, n, found[n].summary);
      }
    }
  }

  /** A headset that answers: it is on, and so is said to be. */
  predicate Answers(headset: Headset) {
    headset.supportsBattery && (headset.battery.Discharging? || headset.battery.Charging?)
  }

  /** What is found is what is best: a headset that answers, one with a battery, any at all. */
  lemma SummaryIsTheBest(headsets: seq<Headset>)
    ensures SummaryOf(headsets) == Online <==> exists h <- headsets :: Answers(h)
    ensures SummaryOf(headsets) in {Online, Offline} <==> exists h <- headsets :: h.supportsBattery
    ensures SummaryOf(headsets) == NoDevice <==> headsets == []
  {
    if headsets != [] {
      assert headsets[0] in headsets;
    }
  }

  /** Poll `i` is the first of those that have found the same as the last. */
  ghost predicate Begins(found: seq<Found>, i: nat) {
    && found != [] && LastsFrom(found, i, found[|found| - 1].summary)
    && (0 < i ==> found[i - 1].summary != found[|found| - 1].summary)
  }

  ghost predicate Ordered(found: seq<Found>) {
    forall i, j :: 0 <= i < j < |found| ==> found[i].at <= found[j].at
  }

  /** What is unsettled is what the last poll found, since the first of the polls to find it. */
  lemma {:induction false} UnsettledSince(found: seq<Found>)
    ensures var news := Run(found);
      match news.unsettled
      case None => found == [] || news.last == Some(found[|found| - 1].summary)
      case Some(unsettled) =>
        && found != [] && unsettled.summary == found[|found| - 1].summary && news.last != Some(unsettled.summary)
        && exists i: nat :: Begins(found, i) && found[i].at == unsettled.since
    decreases |found|
  {
    if found == [] {
    } else {
      var n := |found| - 1;
      var most := found[..n];
      UnsettledSince(most);
      var news := Run(most);
      if news.unsettled.Some? && news.unsettled.value.summary == found[n].summary {
        var i: nat :| Begins(most, i) && most[i].at == news.unsettled.value.since;
        assert Begins(found, i) && found[i].at == most[i].at;
      } else if news.last != Some(found[n].summary) {
        assert Begins(found, n);
      }
    }
  }

  /**
   A line is said of what a poll finds if and only if it was not the last thing said and every poll
   for five seconds has found it - and that is then the last thing said.
   */
  lemma {:induction false} SaidExactly(found: seq<Found>)
    requires found != [] && Ordered(found)
    ensures var most, last := found[..|found| - 1], found[|found| - 1];
      && (Run(most).Says(last.summary, last.at) <==>
            && Run(most).last != Some(last.summary)
            && exists i: nat :: LastsFrom(found, i, last.summary) && found[i].at + SUMMARY_SETTLE <= last.at)
      && Run(found).last == if Run(most).Says(last.summary, last.at) then Some(last.summary) else Run(most).last
  {
    var n := |found| - 1;
    var most, last := found[..n], found[n];
    UnsettledSince(most);
    var news := Run(most);
    if news.unsettled.Some? && news.unsettled.value.summary == last.summary {
      var first: nat :| Begins(most, first) && most[first].at == news.unsettled.value.since;
      assert LastsFrom(found, first, last.summary);
      FirstIsEarliest(found, first);
    } else if news.last != Some(last.summary) {
      assert most != [] ==> most[n - 1].summary != last.summary;
      assert forall i: nat :: LastsFrom(found, i, last.summary) ==> i == n;
    }
  }

  lemma {:induction false} FirstIsEarliest(found: seq<Found>, first: nat)
    requires found != [] && Ordered(found) && first < |found| - 1 && Begins(found[..|found| - 1], first)
    requires found[|found| - 2].summary == found[|found| - 1].summary
    ensures forall i: nat :: LastsFrom(found, i, found[|found| - 1].summary) ==> found[first].at <= found[i].at
  {
    var summary := found[|found| - 1].summary;
    assert found[..|found| - 1][|found| - 2].summary == summary;
    assert 0 < first ==> found[..|found| - 1][first - 1].summary != summary;
    forall i: nat | LastsFrom(found, i, summary)
      ensures found[first].at <= found[i].at
    {
    }
  }
}
