/**
 The request budget of a product, over whole runs of the reader: what all the sessions it has had
 have sent together, however often its dongle came and went.
 */
module ReaderBudgets {
  import opened Prelude
  import opened Frame
  import opened Headsets
  import opened Sessions
  import opened SessionRuns
  import opened Readers
  import opened ReaderRuns
  import ReaderBeliefs
  import ReaderSilence

  /**
   What a product has been asked: `sent` requests since `from`, when its first session was opened,
   through so many `silences` - each begins with a session opened or something heard, the last one
   `at`, when `paid` requests had been sent.
   */
  datatype Ledger = Ledger(from: nat, silences: nat, at: nat, paid: nat, sent: nat)
  {
    function Anew(now: nat): Ledger {
      this.(silences := silences + 1, at := now, paid := sent)
    }

    /** Three for each silence, and one for every ten minutes: before the last one, and during it. */
    ghost predicate IsKept(clock: nat) {
      && from <= at <= clock && 1 <= silences && paid <= sent
      && WithinBudget(paid, silences - 1, at - from)
      && WithinBudget(sent - paid, 1, clock - at)
    }
  }

  function LedgerOf(trace: seq<Act>, productId: nat): Option<Ledger> {
    if trace == [] then None else Booked(LedgerOf(trace[..|trace| - 1], productId), trace[|trace| - 1], productId)
  }

  function Booked(ledger: Option<Ledger>, act: Act, productId: nat): Option<Ledger> {
    match act
    case Opening(_, p, _, at) =>
      if p != productId then ledger
      else if ledger.Some? then Some(ledger.value.Anew(at))
      else Some(Ledger(at, 1, at, 0, 0))
    case Polled(_, p, poll) =>
      if p == productId && ledger.Some? && !poll.Quiet() then Some(ledger.value.Anew(poll.now)) else ledger
    case Asked(_, p, _) =>
      if p == productId && ledger.Some? then Some(ledger.value.(sent := ledger.value.sent + 1)) else ledger
    case _ => ledger
  }

  lemma {:induction false} BookedAfter(trace: seq<Act>, act: Act, productId: nat)
    ensures LedgerOf(trace + [act], productId) == Booked(LedgerOf(trace, productId), act, productId)
  {
    assert (trace + [act])[..|trace|] == trace;
  }

  /** The ledger is kept, and the session of the product, if it has one, is in the last silence of it. */
  ghost predicate Keeps(r: ReaderState, productId: nat, clock: nat) {
    var ledger := LedgerOf(r.trace, productId);
    && (ledger.Some? ==> ledger.value.IsKept(clock))
    && forall node :: ReaderBeliefs.SessionOf(r, node, productId) ==>
         ledger.Some?
         && InWindow(r.sessions[node].state, ledger.value.at, ledger.value.sent - ledger.value.paid, clock)
  }

  ghost predicate AllKeep(r: ReaderState, clock: nat) {
    ReaderBeliefs.Unique(r) && OpensFirst(r.trace) && forall productId :: Keeps(r, productId, clock)
  }

  lemma {:induction false} LongerBudget(n: nat, silences: nat, elapsed: nat, whole: nat)
    requires WithinBudget(n, silences, elapsed) && elapsed <= whole
    ensures WithinBudget(n, silences, whole)
  {
    SlowRequestsAdd(elapsed, 0, whole);
  }

  /** A new silence begins with nothing sent, and what was sent before is within the budget. */
  lemma {:induction false} NewSilence(ledger: Ledger, clock: nat, now: nat)
    requires ledger.IsKept(clock) && clock <= now
    ensures ledger.Anew(now).IsKept(now)
  {
    LongerBudget(ledger.sent - ledger.paid, 1, clock - ledger.at, now - ledger.at);
    BudgetsJoin(ledger.paid, ledger.silences - 1, ledger.at - ledger.from,
                ledger.sent - ledger.paid, now - ledger.at, now - ledger.from);
  }

  lemma {:induction false} LaterKeeps(r: ReaderState, productId: nat, clock: nat, later: nat)
    requires Keeps(r, productId, clock) && clock <= later
    ensures Keeps(r, productId, later)
  {
    var ledger := LedgerOf(r.trace, productId);
    if ledger.Some? {
      var l := ledger.value;
      LongerBudget(l.sent - l.paid, 1, clock - l.at, later - l.at);
    }
  }

  lemma {:induction false} OpenKeeps(r: ReaderState, dongle: Dongle, now: nat, clock: nat)
    requires AllKeep(r, clock) && clock <= now
    requires dongle.node !in r.sessions ==> forall node <- r.sessions :: r.sessions[node].productId != dongle.productId
    ensures AllKeep(r.Open(dongle, now), now)
  {
    var open := r.Open(dongle, now);
    if dongle.node !in r.sessions {
      OneMoreAct(r.trace, Opening(dongle.node, dongle.productId, r.Inherited(dongle.productId), now));
    }
    forall p
      ensures Keeps(open, p, now)
    {
      LaterKeeps(r, p, clock, now);
      if dongle.node !in r.sessions {
        BookedAfter(r.trace, Opening(dongle.node, dongle.productId, r.Inherited(dongle.productId), now), p);
        OpeningKeeps(r, open, dongle, p, clock, now);
      }
    }
  }

  lemma {:induction false} OpeningKeeps(r: ReaderState, open: ReaderState, dongle: Dongle, p: nat, clock: nat, now: nat)
    requires dongle.node !in r.sessions && open == r.Open(dongle, now)
    requires forall node <- r.sessions :: r.sessions[node].productId != dongle.productId
    requires Keeps(r, p, clock) && Keeps(r, p, now) && clock <= now
    requires LedgerOf(open.trace, p)
          == Booked(LedgerOf(r.trace, p), Opening(dongle.node, dongle.productId, r.Inherited(dongle.productId), now), p)
    ensures Keeps(open, p, now)
  {
    var ledger := LedgerOf(r.trace, p);
    if p == dongle.productId {
      if ledger.Some? {
        NewSilence(ledger.value, clock, now);
      }
      assert forall node :: ReaderBeliefs.SessionOf(open, node, p) ==> node == dongle.node;
    } else {
      assert forall node :: ReaderBeliefs.SessionOf(open, node, p) ==> ReaderBeliefs.SessionOf(r, node, p);
    }
  }

  /** What a poll does to the ledger of its product, with the request it sends if it sends one. */
  function Polling(ledger: Ledger, poll: SessionRuns.Poll, sends: bool): Ledger {
    var heard := if poll.Quiet() then ledger else ledger.Anew(poll.now);
    heard.(sent := heard.sent + if sends then 1 else 0)
  }

  lemma {:induction false} ListeningBooks(r: ReaderState, dongle: Dongle, pass: Pass, io: Io, p: nat)
    requires dongle.node in r.sessions
    ensures var held, poll := r.sessions[dongle.node], r.PollOf(pass, io);
      var before, after := LedgerOf(r.trace, p), LedgerOf(r.ListenTo(dongle, pass, io).0.trace, p);
      after == if p == held.productId && before.Some? then
                 Some(Polling(before.value, poll, Sends(held.state, poll)))
               else
                 before
  {
    var held, poll := r.sessions[dongle.node], r.PollOf(pass, io);
    var asked, checked := ReaderSilence.ListeningAdds(r, dongle, pass, io);
    PollingBooks(r.trace, dongle.node, held.productId, poll, asked, checked, p);
  }

  lemma {:induction false} PollingBooks(
    trace: seq<Act>, node: Node, productId: nat, poll: SessionRuns.Poll, asked: seq<Act>, checked: seq<Act>, p: nat)
    requires asked == [] || asked == [Asked(node, productId, poll.now)] || (|asked| == 1 && asked[0].GaveUp?)
    requires forall act <- checked :: act.Checked?
    ensures var before := LedgerOf(trace, p);
      LedgerOf(trace + [Polled(node, productId, poll)] + asked + checked, p)
      == if p == productId && before.Some? then
           Some(Polling(before.value, poll, asked != [] && asked[0].Asked?))
         else
           before
  {
    var polled := Polled(node, productId, poll);
    BookedAfter(trace, polled, p);
    AskingBooks(trace + [polled], asked, node, productId, poll.now, p);
    ChecksAreFree(trace + [polled] + asked, checked, p);
  }

  lemma {:induction false} AskingBooks(trace: seq<Act>, asked: seq<Act>, node: Node, productId: nat, now: nat, p: nat)
    requires asked == [] || asked == [Asked(node, productId, now)] || (|asked| == 1 && asked[0].GaveUp?)
    ensures var before, after := LedgerOf(trace, p), LedgerOf(trace + asked, p);
      after == if p == productId && before.Some? && asked != [] && asked[0].Asked? then
                 Some(before.value.(sent := before.value.sent + 1))
               else
                 before
  {
    if asked != [] {
      assert asked == [asked[0]];
      BookedAfter(trace, asked[0], p);
    } else {
      assert trace + asked == trace;
    }
  }

  lemma {:induction false} ChecksAreFree(trace: seq<Act>, checked: seq<Act>, p: nat)
    requires forall act <- checked :: act.Checked?
    ensures LedgerOf(trace + checked, p) == LedgerOf(trace, p)
    decreases |checked|
  {
    if checked == [] {
      assert trace + checked == trace;
    } else {
      var n := |checked| - 1;
      assert checked[n] in checked && forall act <- checked[..n] :: act in checked;
      ChecksAreFree(trace, checked[..n], p);
      BookedAfter(trace + checked[..n], checked[n], p);
      assert trace + checked == trace + checked[..n] + [checked[n]];
    }
  }

  lemma {:induction false} PollingKeeps(s: State, ledger: Ledger, poll: SessionRuns.Poll)
    requires ledger.IsKept(poll.now) && InWindow(s, ledger.at, ledger.sent - ledger.paid, poll.now)
    ensures var after := Polling(ledger, poll, Sends(s, poll));
      after.IsKept(poll.now) && InWindow(Step(s, poll), after.at, after.sent - after.paid, poll.now)
  {
    var after := Polling(ledger, poll, Sends(s, poll));
    if poll.Quiet() {
      WindowGoesOn(s, ledger.at, ledger.sent - ledger.paid, poll.now, poll);
    } else {
      WindowStarts(s, poll);
      NewSilence(ledger, poll.now, poll.now);
    }
    WindowKeepsBudget(Step(s, poll), after.at, after.sent - after.paid, poll.now);
  }

  lemma {:induction false} ListeningKeeps(r: ReaderState, dongle: Dongle, pass: Pass, io: Io)
    requires dongle.node in r.sessions && AllKeep(r, pass.now)
    ensures AllKeep(r.ListenTo(dongle, pass, io).0, pass.now)
  {
    var after, held := r.ListenTo(dongle, pass, io).0, r.sessions[dongle.node];
    VisitPollsTheSession(r, dongle, pass, io);
    ListeningKeepsProducts(r, dongle, pass, io);
    ListeningOpensFirst(r, dongle, pass, io);
    forall p
      ensures Keeps(after, p, pass.now)
    {
      assert Keeps(r, p, pass.now);
      ListeningBooks(r, dongle, pass, io, p);
      if p == held.productId {
        ListenedKeeps(r, after, dongle.node, r.PollOf(pass, io), pass.now);
      } else {
        OthersKeep(r, after, dongle, pass, io, p);
      }
    }
  }

  lemma {:induction false} ListeningOpensFirst(r: ReaderState, dongle: Dongle, pass: Pass, io: Io)
    requires dongle.node in r.sessions && AllKeep(r, pass.now)
    ensures OpensFirst(r.ListenTo(dongle, pass, io).0.trace)
  {
    var p := r.sessions[dongle.node].productId;
    var asked, checked := ReaderSilence.ListeningAdds(r, dongle, pass, io);
    assert Keeps(r, p, pass.now) && ReaderBeliefs.SessionOf(r, dongle.node, p);
    LedgerCounts(r.trace, p);
    var polled := [Polled(dongle.node, p, r.PollOf(pass, io))];
    OpensFirstStill(r.trace, polled, p);
    OpensFirstStill(r.trace + polled, asked, p);
    OpensFirstStill(r.trace + polled + asked, checked, p);
  }

  /** The product of the session listened to. */
  lemma {:induction false} ListenedKeeps(
    r: ReaderState, after: ReaderState, node: Node, poll: SessionRuns.Poll, now: nat)
    requires node in r.sessions && node in after.sessions && poll.now == now && ReaderBeliefs.Unique(r)
    requires Keeps(r, r.sessions[node].productId, now)
    requires forall n, p :: ReaderBeliefs.SessionOf(after, n, p) <==> ReaderBeliefs.SessionOf(r, n, p)
    requires after.sessions[node].state == Step(r.sessions[node].state, poll)
    requires var before := LedgerOf(r.trace, r.sessions[node].productId);
      before.Some? ==>
        LedgerOf(after.trace, r.sessions[node].productId)
        == Some(Polling(before.value, poll, Sends(r.sessions[node].state, poll)))
    ensures Keeps(after, r.sessions[node].productId, now)
  {
    var p := r.sessions[node].productId;
    assert ReaderBeliefs.SessionOf(r, node, p);
    PollingKeeps(r.sessions[node].state, LedgerOf(r.trace, p).value, poll);
    forall n | ReaderBeliefs.SessionOf(after, n, p)
      ensures n == node
    {
      assert ReaderBeliefs.SessionOf(r, n, p);
    }
  }

  lemma {:induction false} OthersKeep(r: ReaderState, after: ReaderState, dongle: Dongle, pass: Pass, io: Io, p: nat)
    requires Keeps(r, p, pass.now) && dongle.node in r.sessions && p != r.sessions[dongle.node].productId
    requires after == r.ListenTo(dongle, pass, io).0 && LedgerOf(after.trace, p) == LedgerOf(r.trace, p)
    requires forall n, q :: ReaderBeliefs.SessionOf(after, n, q) <==> ReaderBeliefs.SessionOf(r, n, q)
    ensures Keeps(after, p, pass.now)
  {
    forall node | ReaderBeliefs.SessionOf(after, node, p)
      ensures ReaderBeliefs.SessionOf(r, node, p) && after.sessions[node] == r.sessions[node]
    {
      assert ReaderBeliefs.SessionOf(r, node, p);
      ListeningLeavesTheOthers(r, dongle, pass, io, node);
    }
  }

  /** Listening to an open session opens and closes none. */
  lemma {:induction false} ListeningKeepsProducts(r: ReaderState, dongle: Dongle, pass: Pass, io: Io)
    requires dongle.node in r.sessions && ReaderBeliefs.Unique(r)
    ensures var after := r.ListenTo(dongle, pass, io).0;
      && ReaderBeliefs.Unique(after)
      && forall node, p :: ReaderBeliefs.SessionOf(after, node, p) <==> ReaderBeliefs.SessionOf(r, node, p)
  {
    var after := r.ListenTo(dongle, pass, io).0;
    forall node, p
      ensures ReaderBeliefs.SessionOf(after, node, p) <==> ReaderBeliefs.SessionOf(r, node, p)
    {
      if node != dongle.node {
        ListeningLeavesTheOthers(r, dongle, pass, io, node);
      } else {
        ListeningKeepsTheProduct(r, dongle, pass, io);
      }
    }
    forall m, n | m in after.sessions && n in after.sessions && m != n
      ensures after.sessions[m].productId != after.sessions[n].productId
    {
      assert ReaderBeliefs.SessionOf(after, m, after.sessions[m].productId);
      assert ReaderBeliefs.SessionOf(after, n, after.sessions[n].productId);
    }
  }

  lemma {:induction false} ListeningKeepsTheProduct(r: ReaderState, dongle: Dongle, pass: Pass, io: Io)
    requires dongle.node in r.sessions
    ensures var after := r.ListenTo(dongle, pass, io).0;
      dongle.node in after.sessions && after.sessions[dongle.node].productId == r.sessions[dongle.node].productId
  {
  }

  lemma {:induction false} CloseKeeps(r: ReaderState, node: Node, clock: nat)
    requires AllKeep(r, clock)
    ensures AllKeep(r.Close(node), clock)
  {
    FewerKeep(r, r.Close(node), clock);
  }

  /** Sessions that are closed leave the ledger as it is. */
  lemma {:induction false} FewerKeep(r: ReaderState, after: ReaderState, clock: nat)
    requires AllKeep(r, clock) && after.trace == r.trace
    requires forall node <- after.sessions :: node in r.sessions && after.sessions[node] == r.sessions[node]
    ensures AllKeep(after, clock)
  {
    forall p
      ensures Keeps(after, p, clock)
    {
      assert Keeps(r, p, clock);
      assert forall node :: ReaderBeliefs.SessionOf(after, node, p) ==> ReaderBeliefs.SessionOf(r, node, p);
    }
  }

  lemma {:induction false} VisitKeeps(r: ReaderState, dongle: Dongle, pass: Pass, io: Io, clock: nat)
    requires AllKeep(r, clock) && clock <= pass.now
    requires dongle.node !in r.sessions ==> forall node <- r.sessions :: r.sessions[node].productId != dongle.productId
    ensures AllKeep(r.Visit(dongle, pass, io).0, pass.now)
  {
    if dongle.node in r.sessions || io.opens {
      var open := r.Open(dongle, pass.now);
      OpenKeeps(r, dongle, pass.now, clock);
      OpeningFirst(r, dongle, pass, io);
      ListeningKeeps(open, dongle, pass, io);
      CloseKeeps(open.ListenTo(dongle, pass, io).0, dongle.node, pass.now);
    } else {
      AllKeepLater(r, clock, pass.now);
    }
  }

  lemma {:induction false} AllKeepLater(r: ReaderState, clock: nat, later: nat)
    requires AllKeep(r, clock) && clock <= later
    ensures AllKeep(r, later)
  {
    forall p
      ensures Keeps(r, p, later)
    {
      LaterKeeps(r, p, clock, later);
    }
  }

  lemma {:induction false} VisitAllKeeps(r: ReaderState, all: seq<Dongle>, n: nat, pass: Pass, ios: seq<Io>, clock: nat)
    requires AllKeep(r, clock) && clock <= pass.now && ReaderBeliefs.OnePerProduct(all) && n <= |all| == |ios|
    requires ReaderBeliefs.NoSecondSession(r, r.sessions.Keys, all)
    ensures var after := r.VisitAll(all[..n], pass, ios[..n]).0;
      AllKeep(after, pass.now) && ReaderBeliefs.NoSecondSession(after, after.sessions.Keys, all[n..])
    decreases n
  {
    if n == 0 {
      assert all[..0] == [] && all[0..] == all;
      AllKeepLater(r, clock, pass.now);
    } else {
      VisitAllKeeps(r, all, n - 1, pass, ios, clock);
      var before := r.VisitAll(all[..n - 1], pass, ios[..n - 1]).0;
      assert all[n - 1] in all[n - 1..];
      VisitKeeps(before, all[n - 1], pass, ios[n - 1], pass.now);
      ReaderBeliefs.VisitOpensNoSecond(before, all, n - 1, pass, ios[n - 1]);
      OneMoreVisit(r, all, pass, ios, n - 1);
    }
  }

  lemma {:induction false} PassKeeps(
    before: ReaderState, p: ReaderRuns.Poll, after: ReaderState, headsets: seq<Headset>, clock: nat)
    requires AllKeep(before, clock) && clock <= p.pass.now && |p.ios| == |p.dongles|
    requires Reconciles(before, p.dongles, p.pass, p.ios, after, headsets)
    requires ReaderBeliefs.OnePerProduct(p.dongles)
    requires ReaderBeliefs.NoSecondSession(before, Nodes(p.dongles), p.dongles)
    ensures AllKeep(after, p.pass.now)
  {
    var retained := Retained(before, p, after, headsets);
    FewerKeep(before, retained, clock);
    VisitAllKeeps(retained, p.dongles, |p.dongles|, p.pass, p.ios, clock);
    assert p.dongles[..|p.dongles|] == p.dongles && p.ios[..|p.ios|] == p.ios;
  }

  lemma {:induction false} LedgersAreKept(
    states: seq<ReaderState>, polls: seq<ReaderRuns.Poll>, reports: seq<seq<Headset>>, i: nat)
    requires IsRun(states, polls, reports) && Timely(polls) && i <= |polls|
    requires forall j :: 0 <= j < i ==>
      && ReaderBeliefs.OnePerProduct(polls[j].dongles)
      && ReaderBeliefs.NoSecondSession(states[j], Nodes(polls[j].dongles), polls[j].dongles)
    ensures AllKeep(states[i], Clock(polls, i))
    decreases i
  {
    if i == 0 {
    } else {
      LedgersAreKept(states, polls, reports, i - 1);
      PassKeeps(states[i - 1], polls[i - 1], states[i], reports[i - 1], Clock(polls, i - 1));
    }
  }

  /** How many requests the trace has for a product; it is what the ledger counts. */
  function SentTo(trace: seq<Act>, productId: nat): nat {
    if trace == [] then
      0
    else
      var act := trace[|trace| - 1];
      SentTo(trace[..|trace| - 1], productId) + if act.Asked? && act.productId == productId then 1 else 0
  }

  /** How often a session was opened for a product, or a poll for it heard something. */
  function Silences(trace: seq<Act>, productId: nat): nat {
    if trace == [] then
      0
    else
      var act := trace[|trace| - 1];
      var anew := !act.GaveUp? && !act.Checked? && act.productId == productId
                  && (act.Opening? || (act.Polled? && !act.poll.Quiet()));
      Silences(trace[..|trace| - 1], productId) + if anew then 1 else 0
  }

  /** When the first session was opened for a product. */
  function FirstOpening(trace: seq<Act>, productId: nat): Option<nat> {
    if trace == [] then
      None
    else
      var before, act := FirstOpening(trace[..|trace| - 1], productId), trace[|trace| - 1];
      if before.None? && act.Opening? && act.productId == productId then Some(act.at) else before
  }

  /** Nothing of a product is in the trace before its first session is opened. */
  ghost predicate OpensFirst(trace: seq<Act>) {
    forall k :: 0 <= k < |trace| && (trace[k].Polled? || trace[k].Asked?) ==>
      FirstOpening(trace[..k], trace[k].productId).Some?
  }

  lemma {:induction false} LedgerCounts(trace: seq<Act>, productId: nat)
    requires OpensFirst(trace)
    ensures var ledger := LedgerOf(trace, productId);
      && (ledger.Some? <==> FirstOpening(trace, productId).Some?)
      && (ledger.Some? ==>
            && ledger.value.from == FirstOpening(trace, productId).value
            && ledger.value.sent == SentTo(trace, productId)
            && ledger.value.silences == Silences(trace, productId))
      && (ledger.None? ==> SentTo(trace, productId) == 0 && Silences(trace, productId) == 0)
    decreases |trace|
  {
    if trace == [] {
    } else {
      var n := |trace| - 1;
      assert forall k :: 0 <= k < n ==> trace[..n][..k] == trace[..k];
      LedgerCounts(trace[..n], productId);
    }
  }

  /** Acts that poll and ask only for a product that has had a session. */
  lemma {:induction false} OpensFirstStill(trace: seq<Act>, more: seq<Act>, productId: nat)
    requires OpensFirst(trace) && FirstOpening(trace, productId).Some?
    requires forall act <- more :: act.Polled? || act.Asked? ==> act.productId == productId
    ensures OpensFirst(trace + more) && FirstOpening(trace + more, productId).Some?
    decreases |more|
  {
    if more == [] {
      assert trace + more == trace;
    } else {
      var n := |more| - 1;
      assert more[n] in more && forall act <- more[..n] :: act in more;
      OpensFirstStill(trace, more[..n], productId);
      assert trace + more == trace + more[..n] + [more[n]];
      OneMoreAct(trace + more[..n], more[n]);
    }
  }

  lemma {:induction false} OneMoreAct(trace: seq<Act>, act: Act)
    requires OpensFirst(trace)
    requires act.Polled? || act.Asked? ==> FirstOpening(trace, act.productId).Some?
    ensures OpensFirst(trace + [act])
    ensures forall p :: FirstOpening(trace, p).Some? ==> FirstOpening(trace + [act], p).Some?
  {
    var all := trace + [act];
    assert all[..|trace|] == trace;
    forall k | 0 <= k < |all| && (all[k].Polled? || all[k].Asked?)
      ensures FirstOpening(all[..k], all[k].productId).Some?
    {
      assert all[..k] == trace[..k];
    }
  }

  /**
   The request budget of a product, over every run of the reader with one dongle per product in
   which no poll opens a second session for one: all its sessions together are sent at most three
   requests for each session opened and each poll that heard something, and one for every ten
   minutes since the first was opened; and since the last of those, at most three and one for every
   ten minutes.
   */
  lemma {:induction false} ProductsKeepTheBudget(
    states: seq<ReaderState>, polls: seq<ReaderRuns.Poll>, reports: seq<seq<Headset>>, i: nat, productId: nat)
    requires IsRun(states, polls, reports) && Timely(polls) && i <= |polls|
    requires forall j :: 0 <= j < i ==>
      && ReaderBeliefs.OnePerProduct(polls[j].dongles)
      && ReaderBeliefs.NoSecondSession(states[j], Nodes(polls[j].dongles), polls[j].dongles)
    ensures var trace, clock := states[i].trace, Clock(polls, i);
      var opening := FirstOpening(trace, productId);
      if opening.Some? then
        && opening.value <= clock
        && WithinBudget(SentTo(trace, productId), Silences(trace, productId), clock - opening.value)
        && LedgerOf(trace, productId).Some?
        && var ledger := LedgerOf(trace, productId).value;
          ledger.at <= clock && ledger.paid <= SentTo(trace, productId)
          && WithinBudget(SentTo(trace, productId) - ledger.paid, 1, clock - ledger.at)
      else
        SentTo(trace, productId) == 0
  {
    LedgersAreKept(states, polls, reports, i);
    var trace, clock := states[i].trace, Clock(polls, i);
    assert Keeps(states[i], productId, clock);
    LedgerCounts(trace, productId);
    var ledger := LedgerOf(trace, productId);
    if ledger.Some? {
      var l := ledger.value;
      BudgetsJoin(l.paid, l.silences - 1, l.at - l.from, l.sent - l.paid, clock - l.at, clock - l.from);
    }
  }
}
