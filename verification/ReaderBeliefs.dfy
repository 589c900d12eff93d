/**
 Closing sessions and opening others loses nothing of the link: what the reader believes about a
 product's link is what one observer would who never closes anything - exactly as long as no
 poll opens a second session for a product.
 */
module ReaderBeliefs {
  import opened Prelude
  import opened Frame
  import opened Headsets
  import opened Sessions
  import SessionRuns
  import opened Readers
  import opened ReaderRuns

  /** What one observer who never closes anything knows of a product's link. */
  function Observer(trace: seq<Act>, productId: nat): LinkState {
    if trace == [] then Unknown else Observed(Observer(trace[..|trace| - 1], productId), trace[|trace| - 1], productId)
  }

  /** What an act tells the observer. */
  function Observed(link: LinkState, act: Act, productId: nat): LinkState {
    match act
    case Polled(_, p, poll) =>
      if p != productId || poll.Quiet() then link
      else if poll.fetched.value[|poll.fetched.value| - 1] == Link(false) then Down
      else Up
    case GaveUp(p, _) => if p == productId then Unknown else link
    case _ => link
  }

  lemma ObserverAfter(trace: seq<Act>, act: Act, productId: nat)
    ensures Observer(trace + [act], productId) == Observed(Observer(trace, productId), act, productId)
  {
    assert (trace + [act])[..|trace|] == trace;
  }

  ghost predicate SessionOf(r: ReaderState, node: Node, productId: nat) {
    node in r.sessions && r.sessions[node].productId == productId
  }

  /** Wherever the reader keeps its belief about a product's link, it is `link`. */
  ghost predicate Believes(r: ReaderState, productId: nat, link: LinkState) {
    && (forall node :: SessionOf(r, node, productId) ==> r.sessions[node].state.link == link)
    && ((forall node :: !SessionOf(r, node, productId)) ==> r.Inherited(productId) == link)
  }

  ghost predicate BelievesTheObserver(r: ReaderState) {
    forall productId :: Believes(r, productId, Observer(r.trace, productId))
  }

  /** No two sessions are of one product. */
  ghost predicate Unique(r: ReaderState) {
    forall m, n :: m in r.sessions && n in r.sessions && m != n ==> r.sessions[m].productId != r.sessions[n].productId
  }

  /** What every step keeps. */
  ghost predicate Faithful(r: ReaderState) {
    BelievesTheObserver(r) && Unique(r)
  }

  /** One dongle per product is plugged in, on a node of its own. */
  ghost predicate OnePerProduct(dongles: seq<Dongle>) {
    forall i, j :: 0 <= i < j < |dongles| ==>
      dongles[i].productId != dongles[j].productId && dongles[i].node != dongles[j].node
  }

  /**
   A dongle that has no session does not get a second one for its product: none of the sessions
   that stay, on the nodes listed, is of the product.
   */
  ghost predicate NoSecondSession(r: ReaderState, listed: set<Node>, dongles: seq<Dongle>) {
    forall d <- dongles, node <- r.sessions ::
      d.node !in r.sessions && node in listed ==> r.sessions[node].productId != d.productId
  }

  /** In particular, none does while the nodes listed stay the same dongles. */
  lemma SameDonglesOpenNoSecond(r: ReaderState, dongles: seq<Dongle>)
    requires OnePerProduct(dongles) && SameDongles(r, dongles)
    ensures NoSecondSession(r, Nodes(dongles), dongles)
  {
    forall d <- dongles, node <- r.sessions | d.node !in r.sessions && node in Nodes(dongles)
      ensures r.sessions[node].productId != d.productId
    {
      var e :| e in dongles && e.node == node;
      assert SameDongle(r, e);
      var i :| 0 <= i < |dongles| && dongles[i] == d;
      var j :| 0 <= j < |dongles| && dongles[j] == e;
      assert i != j;
    }
  }

  lemma RetainingIsFaithful(before: ReaderState, listed: set<Node>, after: ReaderState)
    requires Faithful(before) && Retains(before, listed, after)
    ensures Faithful(after)
  {
    forall p
      ensures Believes(after, p, Observer(after.trace, p))
    {
      assert Believes(before, p, Observer(before.trace, p));
      if ClosesNone(before, listed, p) {
        assert forall node :: SessionOf(before, node, p) ==> !Closes(before, listed, node, p);
        assert forall node :: SessionOf(before, node, p) ==> SessionOf(after, node, p);
      }
    }
  }

  lemma OpenIsFaithful(r: ReaderState, dongle: Dongle, now: nat)
    requires Faithful(r)
    requires dongle.node !in r.sessions ==> forall node <- r.sessions :: r.sessions[node].productId != dongle.productId
    ensures Faithful(r.Open(dongle, now))
  {
    var open := r.Open(dongle, now);
    if dongle.node !in r.sessions {
      forall p
        ensures Believes(open, p, Observer(open.trace, p))
      {
        ObserverAfter(r.trace, Opening(dongle.node, dongle.productId, r.Inherited(dongle.productId), now), p);
        assert Believes(r, p, Observer(r.trace, p));
        assert forall node :: SessionOf(r, node, p) ==> SessionOf(open, node, p);
        assert !SessionOf(r, dongle.node, p);
        if p == dongle.productId {
          assert forall node :: !SessionOf(r, node, p);
          assert SessionOf(open, dongle.node, p);
        }
      }
    }
  }

  /** Only the session at `node` has moved: the belief about its product moves with it. */
  lemma BeliefMoves(r: ReaderState, after: ReaderState, node: Node, productId: nat, was: LinkState, becomes: LinkState)
    requires Believes(r, productId, was) && Unique(r) && node in r.sessions
    requires r.sessions.Keys == after.sessions.Keys && after.lastLink == r.lastLink
    requires forall n <- r.sessions :: n != node ==> after.sessions[n] == r.sessions[n]
    requires after.sessions[node].productId == r.sessions[node].productId
    requires becomes == if r.sessions[node].productId == productId then after.sessions[node].state.link else was
    ensures Believes(after, productId, becomes)
  {
    forall n
      ensures SessionOf(r, n, productId) <==> SessionOf(after, n, productId)
      ensures SessionOf(after, n, productId) ==> after.sessions[n].state.link == becomes
    {
    }
    if forall n :: !SessionOf(after, n, productId) {
      assert forall n :: !SessionOf(r, n, productId);
      assert !SessionOf(r, node, productId);
      assert after.Inherited(productId) == r.Inherited(productId);
    }
  }

  lemma HearIsFaithful(r: ReaderState, node: Node, poll: SessionRuns.Poll)
    requires Faithful(r) && node in r.sessions && poll.fetched.Some?
    ensures Faithful(r.Hear(node, poll))
  {
    var after := r.Hear(node, poll);
    if poll.fetched.value != [] {
      HeardReport(r.sessions[node].state, poll.fetched.value, |r.log|);
    }
    forall p
      ensures Believes(after, p, Observer(after.trace, p))
    {
      ObserverAfter(r.trace, Polled(node, r.sessions[node].productId, poll), p);
      assert Believes(r, p, Observer(r.trace, p));
      assert SessionOf(r, node, r.sessions[node].productId);
      BeliefMoves(r, after, node, p, Observer(r.trace, p), Observer(after.trace, p));
    }
  }

  lemma AskIsFaithful(r: ReaderState, node: Node, pass: Pass, write: Write)
    requires Faithful(r) && node in r.sessions
    ensures Faithful(r.AskIfDue(node, pass, write))
  {
    var after := r.AskIfDue(node, pass, write);
    assert r.trace + [] == r.trace;
    forall p
      ensures Believes(after, p, Observer(after.trace, p))
    {
      ObserverAfter(r.trace, GaveUp(r.sessions[node].productId, pass.now), p);
      ObserverAfter(r.trace, Asked(node, r.sessions[node].productId, pass.now), p);
      assert Believes(r, p, Observer(r.trace, p));
      assert SessionOf(r, node, r.sessions[node].productId);
      BeliefMoves(r, after, node, p, Observer(r.trace, p), Observer(after.trace, p));
    }
  }

  lemma CheckIsFaithful(r: ReaderState, node: Node, now: nat, playback: Option<bool>)
    requires Faithful(r) && node in r.sessions
    ensures Faithful(r.CheckWedge(node, now, playback))
  {
    var after := r.CheckWedge(node, now, playback);
    if after != r {
      ToldIsFaithful(r, after, Checked(now, playback));
    }
  }

  /** An act the observer learns nothing from. */
  lemma ToldIsFaithful(r: ReaderState, after: ReaderState, act: Act)
    requires Faithful(r)
    requires after.sessions == r.sessions && after.lastLink == r.lastLink && after.trace == r.trace + [act]
    requires act.Checked? || (act.Polled? && act.poll.Quiet())
    ensures Faithful(after)
  {
    forall p
      ensures Believes(after, p, Observer(after.trace, p))
    {
      ObserverAfter(r.trace, act, p);
      assert Believes(r, p, Observer(r.trace, p));
      assert forall n :: SessionOf(r, n, p) <==> SessionOf(after, n, p);
    }
  }

  lemma CloseIsFaithful(r: ReaderState, node: Node)
    requires Faithful(r)
    ensures Faithful(r.Close(node))
  {
    var closed := r.Close(node);
    forall p
      ensures Believes(closed, p, Observer(closed.trace, p))
    {
      assert Believes(r, p, Observer(r.trace, p));
      assert forall n :: SessionOf(closed, n, p) <==> SessionOf(r, n, p) && n != node;
      if SessionOf(r, node, p) {
        assert closed.Inherited(p) == r.sessions[node].state.link;
      }
    }
  }

  lemma VisitIsFaithful(r: ReaderState, dongle: Dongle, pass: Pass, io: Io)
    requires Faithful(r)
    requires dongle.node !in r.sessions ==> forall node <- r.sessions :: r.sessions[node].productId != dongle.productId
    ensures Faithful(r.Visit(dongle, pass, io).0)
  {
    if dongle.node in r.sessions || io.opens {
      OpenIsFaithful(r, dongle, pass.now);
      var open := r.Open(dongle, pass.now);
      var poll := open.PollOf(pass, io);
      if io.fetch.Report? {
        var heard := open.Hear(dongle.node, poll);
        HearIsFaithful(open, dongle.node, poll);
        AskIsFaithful(heard, dongle.node, pass, io.write);
        var asked := heard.AskIfDue(dongle.node, pass, io.write);
        CheckIsFaithful(asked, dongle.node, pass.now, io.playback);
        CloseIsFaithful(asked, dongle.node);
      } else {
        var noted := open.Noted(dongle.node, poll);
        ToldIsFaithful(open, noted, Polled(dongle.node, open.sessions[dongle.node].productId, poll));
        CloseIsFaithful(noted, dongle.node);
      }
    }
  }

  /** Sessions come only from visits, each of its own dongle. */
  lemma {:induction false} VisitAllIsFaithful(r: ReaderState, all: seq<Dongle>, n: nat, pass: Pass, ios: seq<Io>)
    requires Faithful(r) && OnePerProduct(all) && n <= |all| == |ios| && NoSecondSession(r, r.sessions.Keys, all)
    ensures var after := r.VisitAll(all[..n], pass, ios[..n]).0;
      Faithful(after) && NoSecondSession(after, after.sessions.Keys, all[n..])
    decreases n
  {
    if n == 0 {
      assert all[..0] == [] && all[0..] == all;
    } else {
      VisitAllIsFaithful(r, all, n - 1, pass, ios);
      var before := r.VisitAll(all[..n - 1], pass, ios[..n - 1]).0;
      assert all[n - 1] in all[n - 1..];
      VisitIsFaithful(before, all[n - 1], pass, ios[n - 1]);
      VisitOpensNoSecond(before, all, n - 1, pass, ios[n - 1]);
      assert all[..n][..n - 1] == all[..n - 1] && ios[..n][..n - 1] == ios[..n - 1];
    }
  }

  lemma VisitOpensNoSecond(r: ReaderState, all: seq<Dongle>, n: nat, pass: Pass, io: Io)
    requires OnePerProduct(all) && n < |all| && NoSecondSession(r, r.sessions.Keys, all[n..])
    ensures var after := r.Visit(all[n], pass, io).0; NoSecondSession(after, after.sessions.Keys, all[n + 1..])
  {
    var after := r.Visit(all[n], pass, io).0;
    forall d <- all[n + 1..], node <- after.sessions | d.node !in after.sessions
      ensures after.sessions[node].productId != d.productId
    {
      var i :| n < i < |all| && all[i] == d;
      assert d in all[n..];
      VisitLeavesTheOthers(r, all[n], pass, io, d.node);
      if node != all[n].node {
        VisitLeavesTheOthers(r, all[n], pass, io, node);
      } else {
        VisitKeepsTheProduct(r, all[n], pass, io);
      }
    }
  }

  lemma VisitKeepsTheProduct(r: ReaderState, dongle: Dongle, pass: Pass, io: Io)
    ensures var after := r.Visit(dongle, pass, io).0;
      dongle.node in after.sessions ==>
        after.sessions[dongle.node].productId == r.Open(dongle, pass.now).sessions[dongle.node].productId
  {
  }

  /**
   Over every run with one dongle per product, in which no poll opens a second session for a
   product: closing sessions and opening others - nodes lost or taken over, dongles gone in the
   middle of an exchange, opens that fail - is invisible. What the reader believes about a
   product's link is what one observer of the same messages and givings-up knows.
   */
  lemma {:induction false} ReenumerationLosesNothing(
    states: seq<ReaderState>, polls: seq<Poll>, reports: seq<seq<Headset>>, i: nat)
    requires IsRun(states, polls, reports) && i <= |polls|
    requires forall j :: 0 <= j < i ==>
      OnePerProduct(polls[j].dongles) && NoSecondSession(states[j], Nodes(polls[j].dongles), polls[j].dongles)
    ensures Faithful(states[i])
    decreases i
  {
    if i == 0 {
    } else {
      ReenumerationLosesNothing(states, polls, reports, i - 1);
      var p := polls[i - 1];
      var retained := Retained(states[i - 1], p, states[i], reports[i - 1]);
      PassIsFaithful(states[i - 1], p, retained);
    }
  }

  lemma PassIsFaithful(before: ReaderState, p: Poll, retained: ReaderState)
    requires |p.ios| == |p.dongles| && Faithful(before) && OnePerProduct(p.dongles)
    requires NoSecondSession(before, Nodes(p.dongles), p.dongles) && Retains(before, Nodes(p.dongles), retained)
    ensures Faithful(retained.VisitAll(p.dongles, p.pass, p.ios).0)
  {
    RetainingIsFaithful(before, Nodes(p.dongles), retained);
    VisitAllIsFaithful(retained, p.dongles, |p.dongles|, p.pass, p.ios);
    assert p.dongles[..|p.dongles|] == p.dongles && p.ios[..|p.ios|] == p.ios;
  }

  // ----- And only then -----

  /** A report that says the headset is linked, or gone, and nothing else. */
  function Announcement(up: bool): seq<byte> {
    [0, 18, 0] + PrintItem(Announced(up))
  }

  function Announced(up: bool): Item {
    LinkEvent(if up then 1 else 0, [0, 0, 0, 0, 0, 0, 0, 0, 0])
  }

  lemma AnnouncementSays(up: bool)
    ensures Messages(Announcement(up)) == [Link(up)]
  {
    var item := Announced(up);
    assert Print([item]) == PrintItem(item) + Print([]) == PrintItem(item);
    assert Frame.Report(0, 0, PrintItem(item), []) == Announcement(up);
    assert SaidAll([item]) == item.Said() + SaidAll([]) == [Link(up)];
    ReportRoundTrip([item], 0, 0, []);
  }

  /** Nothing but the dongle at `k` opens or answers; that one says the headset is linked, or gone. */
  function OnlyAnnounces(n: nat, k: nat, up: bool): seq<Io> {
    seq(n, i =>
          if i == k then Io(true, Fetch.Report(Announcement(up)), Taken, None)
          else Io(false, FetchFailed(false), Taken, None))
  }

  lemma AnnouncingVisit(r: ReaderState, dongle: Dongle, pass: Pass, up: bool)
    requires dongle.node !in r.sessions
    ensures var after := r.Visit(dongle, pass, Io(true, Fetch.Report(Announcement(up)), Taken, None)).0;
      && SessionOf(after, dongle.node, dongle.productId)
      && after.sessions[dongle.node].state.link == if up then Up else Down
  {
    var io := Io(true, Fetch.Report(Announcement(up)), Taken, None);
    var open := r.Open(dongle, pass.now);
    AnnouncementSays(up);
    HeardAnnouncement(r.Inherited(dongle.productId), pass.now, up, |r.log|);
    var heard := open.Hear(dongle.node, open.PollOf(pass, io));
    AskingTakenLeavesLink(heard, dongle.node, pass);
    assert heard.sessions[dongle.node].state
        == Opened(r.Inherited(dongle.productId), pass.now).Hear([Link(up)], |r.log|);
  }

  lemma HeardAnnouncement(link: LinkState, now: nat, up: bool, readings: nat)
    ensures var s := Opened(link, now).Hear([Link(up)], readings);
      s.link == (if up then Up else Down) && s.Strikes() == 0
  {
    HeardReport(Opened(link, now), [Link(up)], readings);
    assert up || Decides([Link(up)], 0);
  }

  lemma AskingTakenLeavesLink(r: ReaderState, node: Node, pass: Pass)
    requires node in r.sessions && r.sessions[node].state.Strikes() == 0
    ensures !r.AskFails(node, pass, Taken)
    ensures var after := r.AskIfDue(node, pass, Taken);
      && node in after.sessions && after.sessions[node].productId == r.sessions[node].productId
      && after.sessions[node].state.link == r.sessions[node].state.link
  {
  }

  lemma FailingVisit(r: ReaderState, dongle: Dongle, pass: Pass)
    ensures r.Visit(dongle, pass, Io(false, FetchFailed(false), Taken, None)).0.sessions == r.sessions
  {
  }

  /** The session that was there stays as it is, and the new one learns otherwise. */
  lemma {:induction false} TwoSessionsDiffer(
    r: ReaderState, dongles: seq<Dongle>, n: nat, k: nat, node: Node, pass: Pass, up: bool)
    requires OnePerProduct(dongles) && n <= |dongles| && k < |dongles|
    requires dongles[k].node !in r.sessions && SessionOf(r, node, dongles[k].productId)
    ensures var after := r.VisitAll(dongles[..n], pass, OnlyAnnounces(|dongles|, k, up)[..n]).0;
      && node in after.sessions && after.sessions[node] == r.sessions[node]
      && if n <= k then dongles[k].node !in after.sessions
         else SessionOf(after, dongles[k].node, dongles[k].productId)
              && after.sessions[dongles[k].node].state.link == if up then Up else Down
    decreases n
  {
    if n == 0 {
    } else {
      var ios := OnlyAnnounces(|dongles|, k, up);
      TwoSessionsDiffer(r, dongles, n - 1, k, node, pass, up);
      assert dongles[..n][..n - 1] == dongles[..n - 1] && ios[..n][..n - 1] == ios[..n - 1];
      var before := r.VisitAll(dongles[..n - 1], pass, ios[..n - 1]).0;
      if n - 1 == k {
        AnnouncingVisit(before, dongles[k], pass, up);
        VisitLeavesTheOthers(before, dongles[k], pass, ios[k], node);
      } else {
        FailingVisit(before, dongles[n - 1], pass);
      }
    }
  }

  /**
   With one dongle per product, a poll keeps the beliefs right whatever it runs into, if and only
   if it cannot open a second session for a product: if it can - a node taken over by another
   dongle keeps its session, and the dongle that had it is listed on a node of its own - the two
   can be told different things.
   */
  lemma SecondSessionsAreTheOnlyLoss(before: ReaderState, dongles: seq<Dongle>, retained: ReaderState)
    requires Faithful(before) && OnePerProduct(dongles) && Retains(before, Nodes(dongles), retained)
    ensures (forall pass: Pass, ios: seq<Io> :: |ios| == |dongles| ==>
               BelievesTheObserver(retained.VisitAll(dongles, pass, ios).0))
       <==> NoSecondSession(before, Nodes(dongles), dongles)
  {
    if NoSecondSession(before, Nodes(dongles), dongles) {
      forall pass: Pass, ios: seq<Io> | |ios| == |dongles|
        ensures BelievesTheObserver(retained.VisitAll(dongles, pass, ios).0)
      {
        PassIsFaithful(before, Poll(dongles, pass, ios), retained);
      }
    } else {
      var d, node :| d in dongles && node in before.sessions && d.node !in before.sessions
                     && node in Nodes(dongles) && before.sessions[node].productId == d.productId;
      var k :| 0 <= k < |dongles| && dongles[k] == d;
      SecondSessionIsALoss(retained, dongles, k, node);
    }
  }

  lemma SecondSessionIsALoss(r: ReaderState, dongles: seq<Dongle>, k: nat, node: Node)
    requires OnePerProduct(dongles) && k < |dongles|
    requires dongles[k].node !in r.sessions && SessionOf(r, node, dongles[k].productId)
    ensures exists pass: Pass, ios: seq<Io> ::
      |ios| == |dongles| && !BelievesTheObserver(r.VisitAll(dongles, pass, ios).0)
  {
    var pass := Pass(0, 0, 0, false);
    var up := r.sessions[node].state.link != Up;
    var ios := OnlyAnnounces(|dongles|, k, up);
    TwoSessionsDiffer(r, dongles, |dongles|, k, node, pass, up);
    assert dongles[..|dongles|] == dongles && ios[..|ios|] == ios;
    var after := r.VisitAll(dongles, pass, ios).0;
    var p := dongles[k].productId;
    assert SessionOf(after, node, p) && SessionOf(after, dongles[k].node, p);
    assert !Believes(after, p, Observer(after.trace, p));
  }

  /** It does happen: the dongle of product 1 is moved to another node, and one of product 2 takes over. */
  lemma NodesAreTakenOver()
    ensures var here, moved := [Dongle(0, 1)], [Dongle(0, 2), Dongle(1, 1)];
      var poll := Poll(here, Pass(0, 0, 0, false), [Io(true, FetchFailed(false), Taken, None)]);
      var (after, headsets) := INITIAL.VisitAll(here, poll.pass, poll.ios);
      && IsRun([INITIAL, after], [poll], [headsets]) && OnePerProduct(moved)
      && !NoSecondSession(after, Nodes(moved), moved)
  {
    var here, moved := [Dongle(0, 1)], [Dongle(0, 2), Dongle(1, 1)];
    var poll := Poll(here, Pass(0, 0, 0, false), [Io(true, FetchFailed(false), Taken, None)]);
    var (after, headsets) := INITIAL.VisitAll(here, poll.pass, poll.ios);
    assert here[..0] == [] && poll.ios[..0] == [] && INITIAL.VisitAll([], poll.pass, []) == (INITIAL, []);
    assert after.sessions.Keys == {0} && after.sessions[0].productId == 1;
    NothingClosed(INITIAL, Nodes(here));
    assert Reconciles(INITIAL, here, poll.pass, poll.ios, after, headsets);
    assert Dongle(1, 1) in moved && Dongle(0, 2) in moved && 0 in Nodes(moved);
  }
}
